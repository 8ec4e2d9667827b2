/** Python's `sorted(xs, key=key, reverse=True)`: a stable sort by a key,
    largest key first. Equal keys keep their input order. */
module Sorting {

  /** Largest key first. */
  ghost predicate SortedDesc<T>(s: seq<T>, key: T -> int)
  {
    forall i, j :: 0 <= i < j < |s| ==> key(s[i]) >= key(s[j])
  }

  /** The elements of `s` whose key is `v`, in their order in `s`. */
  function WithKey<T>(s: seq<T>, key: T -> int, v: int): seq<T>
  {
    if s == [] then []
    else WithKey(s[..|s| - 1], key, v) + (if key(s[|s| - 1]) == v then [s[|s| - 1]] else [])
  }

  /** `x` placed into the sorted `s` after every element whose key is at
      least `x`'s. */
  function Insert<T>(s: seq<T>, x: T, key: T -> int): (r: seq<T>)
    ensures |r| == |s| + 1
    ensures multiset(r) == multiset(s) + multiset{x}
  {
    if s == [] || key(s[|s| - 1]) >= key(x) then s + [x]
    else
      var front, last := s[..|s| - 1], s[|s| - 1];
      assert s == front + [last];
      Insert(front, x, key) + [last]
  }

  /** Inserting into a sorted sequence keeps it sorted. */
  lemma {:induction false} InsertSorted<T>(s: seq<T>, x: T, key: T -> int)
    requires SortedDesc(s, key)
    ensures SortedDesc(Insert(s, x, key), key)
  {
    if s != [] && key(s[|s| - 1]) < key(x) {
      var front, last := s[..|s| - 1], s[|s| - 1];
      InsertSorted(front, x, key);
      var ins := Insert(front, x, key);
      forall i | 0 <= i < |ins| ensures key(ins[i]) >= key(last) {
        assert ins[i] in multiset(ins);
        if ins[i] != x {
          assert ins[i] in multiset(front);
          var j :| 0 <= j < |front| && front[j] == ins[i];
          assert s[j] == front[j];
        }
      }
      assert Insert(s, x, key) == ins + [last];
    }
  }

  /** Insertion sort from the left: each element goes behind the already
      sorted elements whose key is at least its own. */
  function SortDesc<T>(s: seq<T>, key: T -> int): (r: seq<T>)
    ensures |r| == |s|
    ensures multiset(r) == multiset(s)
    ensures SortedDesc(r, key)
  {
    if s == [] then []
    else
      var front := s[..|s| - 1];
      assert s == front + [s[|s| - 1]];
      InsertSorted(SortDesc(front, key), s[|s| - 1], key);
      Insert(SortDesc(front, key), s[|s| - 1], key)
  }

  /** The key filter of `s + [x]`, unfolded once. */
  lemma WithKeySnoc<T>(s: seq<T>, x: T, key: T -> int, v: int)
    ensures WithKey(s + [x], key, v) == WithKey(s, key, v) + (if key(x) == v then [x] else [])
  {
    assert (s + [x])[..|s|] == s;
  }

  lemma {:induction false} InsertWithKey<T>(s: seq<T>, x: T, key: T -> int, v: int)
    requires SortedDesc(s, key)
    ensures WithKey(Insert(s, x, key), key, v) == WithKey(s, key, v) + (if key(x) == v then [x] else [])
  {
    if s == [] || key(s[|s| - 1]) >= key(x) {
      WithKeySnoc(s, x, key, v);
    } else {
      var front, last := s[..|s| - 1], s[|s| - 1];
      assert SortedDesc(front, key);
      InsertWithKey(front, x, key, v);
      var ins := Insert(front, x, key);
      assert Insert(s, x, key) == ins + [last];
      WithKeySnoc(ins, last, key, v);
      WithKeySnoc(front, last, key, v);
      assert s == front + [last];
    }
  }

  /** Stability: among equal keys the sorted order is the input order. */
  lemma {:induction false} SortDescStable<T>(s: seq<T>, key: T -> int, v: int)
    ensures WithKey(SortDesc(s, key), key, v) == WithKey(s, key, v)
  {
    if s != [] {
      var front := s[..|s| - 1];
      SortDescStable(front, key, v);
      InsertWithKey(SortDesc(front, key), s[|s| - 1], key, v);
    }
  }

  /** A prefix of a sorted sequence is sorted, and holds elements of it. */
  lemma TakeSorted<T>(s: seq<T>, key: T -> int, n: nat)
    requires SortedDesc(s, key) && n <= |s|
    ensures SortedDesc(s[..n], key)
    ensures forall i :: 0 <= i < n ==> s[..n][i] in s
  {
  }

  /** `s[:n]` for `n >= 0`. */
  function Take<T>(s: seq<T>, n: nat): seq<T>
  {
    s[..if n < |s| then n else |s|]
  }

  /** A prefix of a list sorted by key, largest first, holds keys no
      smaller than any key left out. */
  lemma PrefixDominates<T>(s: seq<T>, key: T -> int, n: nat, x: T)
    requires SortedDesc(s, key) && x in s && x !in Take(s, n)
    ensures |Take(s, n)| == n
    ensures forall i :: 0 <= i < n ==> key(Take(s, n)[i]) >= key(x)
  {
    var j :| 0 <= j < |s| && s[j] == x;
    assert j >= |Take(s, n)|;
  }
}
