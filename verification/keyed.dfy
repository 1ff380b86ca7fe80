/** The two list updates the reducers perform on records keyed by `id`:
    `xs.map(x => x.id === p.id ? p : x)` and `xs.filter(x => x.id !== k)`. */
module Keyed {
  import opened Values

  /** `xs.map(x => key(x) === key(p) ? p : x)`. */
  function Replace<T>(xs: seq<T>, key: T -> Id, p: T): (r: seq<T>)
    ensures |r| == |xs|
    ensures forall i :: 0 <= i < |xs| ==> r[i] == if key(xs[i]) == key(p) then p else xs[i]
  {
    if |xs| == 0 then [] else [if key(xs[0]) == key(p) then p else xs[0]] + Replace(xs[1..], key, p)
  }

  /** `xs.filter(x => key(x) !== k)`. */
  function Remove<T>(xs: seq<T>, key: T -> Id, k: Id): (r: seq<T>)
    ensures |r| <= |xs|
  {
    if |xs| == 0 then [] else (if key(xs[0]) == k then [] else [xs[0]]) + Remove(xs[1..], key, k)
  }

  /** Filtering keeps exactly the elements without the key: every survivor
      comes from `xs` and lacks `k`, and every element lacking `k` survives. */
  lemma {:induction false} RemoveKeepsOthers<T>(xs: seq<T>, key: T -> Id, k: Id)
    ensures forall i :: 0 <= i < |Remove(xs, key, k)| ==>
      Remove(xs, key, k)[i] in xs && key(Remove(xs, key, k)[i]) != k
    ensures forall i :: 0 <= i < |xs| && key(xs[i]) != k ==> xs[i] in Remove(xs, key, k)
  {
    if |xs| > 0 {
      RemoveKeepsOthers(xs[1..], key, k);
      var head := if key(xs[0]) == k then [] else [xs[0]];
      var r, rest := Remove(xs, key, k), Remove(xs[1..], key, k);
      assert r == head + rest;
      forall i | 0 <= i < |r|
        ensures r[i] in xs && key(r[i]) != k
      {
        if i >= |head| {
          assert r[i] == rest[i - |head|];
        }
      }
      forall i | 0 <= i < |xs| && key(xs[i]) != k
        ensures xs[i] in r
      {
        if i > 0 {
          assert xs[i] == xs[1..][i - 1];
        }
      }
    }
  }

  /** Filtering distributes over concatenation; together with its effect on
      one element this pins `Remove` down as the order-keeping filter. */
  lemma {:induction false} RemoveAppend<T>(a: seq<T>, b: seq<T>, key: T -> Id, k: Id)
    ensures Remove(a + b, key, k) == Remove(a, key, k) + Remove(b, key, k)
  {
    if |a| > 0 {
      var head := if key(a[0]) == k then [] else [a[0]];
      var x, y := Remove(a[1..], key, k), Remove(b, key, k);
      calc {
        Remove(a + b, key, k);
        { assert (a + b)[0] == a[0] && (a + b)[1..] == a[1..] + b; }
        head + Remove(a[1..] + b, key, k);
        { RemoveAppend(a[1..], b, key, k); }
        head + (x + y);
        (head + x) + y;
      }
    } else {
      assert a + b == b;
    }
  }

  /** Replacing twice with the same record is replacing once. */
  lemma ReplaceIdempotent<T>(xs: seq<T>, key: T -> Id, p: T)
    ensures Replace(Replace(xs, key, p), key, p) == Replace(xs, key, p)
  {
  }

  /** Filtering twice by the same key is filtering once. */
  lemma {:induction false} RemoveIdempotent<T>(xs: seq<T>, key: T -> Id, k: Id)
    ensures Remove(Remove(xs, key, k), key, k) == Remove(xs, key, k)
  {
    if |xs| > 0 {
      var head := if key(xs[0]) == k then [] else [xs[0]];
      RemoveAppend(head, Remove(xs[1..], key, k), key, k);
      RemoveIdempotent(xs[1..], key, k);
    }
  }

  /** Filtering removes exactly the elements with the key: the survivors
      number the elements without it. */
  lemma {:induction false} RemoveCount<T>(xs: seq<T>, key: T -> Id, k: Id)
    ensures |Remove(xs, key, k)| == |xs| - Occurrences(xs, key, k)
  {
    if |xs| > 0 {
      RemoveCount(xs[1..], key, k);
    }
  }

  /** Filtering by a key no element carries leaves the list as it is. */
  lemma {:induction false} RemoveAbsent<T>(xs: seq<T>, key: T -> Id, k: Id)
    requires forall i :: 0 <= i < |xs| ==> key(xs[i]) != k
    ensures Remove(xs, key, k) == xs
  {
    if |xs| > 0 {
      RemoveAbsent(xs[1..], key, k);
      assert xs == [xs[0]] + xs[1..];
    }
  }

  /** How many elements carry key `k`. */
  function Occurrences<T>(xs: seq<T>, key: T -> Id, k: Id): nat {
    if |xs| == 0 then 0 else (if key(xs[0]) == k then 1 else 0) + Occurrences(xs[1..], key, k)
  }

  /** No two elements share a key. */
  predicate UniqueKeys<T>(xs: seq<T>, key: T -> Id) {
    forall i, j :: 0 <= i < j < |xs| ==> key(xs[i]) != key(xs[j])
  }

  /** Replacing keeps the keys where they were. */
  lemma ReplaceKeepsKeys<T>(xs: seq<T>, key: T -> Id, p: T)
    ensures forall i :: 0 <= i < |xs| ==> key(Replace(xs, key, p)[i]) == key(xs[i])
  {
  }

  lemma ReplaceKeepsUnique<T>(xs: seq<T>, key: T -> Id, p: T)
    requires UniqueKeys(xs, key)
    ensures UniqueKeys(Replace(xs, key, p), key)
  {
  }

  lemma {:induction false} RemoveKeepsUnique<T>(xs: seq<T>, key: T -> Id, k: Id)
    requires UniqueKeys(xs, key)
    ensures UniqueKeys(Remove(xs, key, k), key)
  {
    if |xs| > 0 {
      RemoveKeepsUnique(xs[1..], key, k);
      RemoveKeepsOthers(xs[1..], key, k);
      var rest := Remove(xs[1..], key, k);
      if key(xs[0]) != k {
        forall j | 0 <= j < |rest|
          ensures key(xs[0]) != key(rest[j])
        {
          assert rest[j] in xs[1..];
        }
      }
    }
  }
}
