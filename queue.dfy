/** Today's push queue (`push_schedule[today]`): admission of freshly found
    articles without repeating a fingerprint, and the stable sort by score. */
module Queue {
  import opened Fingerprint
  import opened History
  import opened Articles
  import opened Sorting

  /** Articles per pushed message. */
  const MAX_PUSH_PER_BATCH: int := 6

  /** Date to the queue of articles scheduled that day (`push_schedule`). */
  type Schedule = map<Day, seq<Article>>

  /** The fingerprints of `s`, position by position. */
  function Hashes(s: seq<Article>): seq<Hash>
  {
    seq(|s|, i requires 0 <= i < |s| => s[i].hash)
  }

  /** No fingerprint occurs twice in `s`. */
  predicate DistinctHashes(s: seq<Article>)
  {
    forall i, j :: 0 <= i < j < |s| ==> s[i].hash != s[j].hash
  }

  /** The admission loop: each newly found article is appended to the queue unless
      its fingerprint is already there, including one appended earlier in
      the same loop. */
  function Admitted(queue: seq<Article>, incoming: seq<Article>): seq<Article>
  {
    if incoming == [] then queue
    else
      var q := Admitted(queue, incoming[..|incoming| - 1]);
      var a := incoming[|incoming| - 1];
      if a.hash in Hashes(q) then q else q + [a]
  }

  /** Admission of `incoming + [a]`, unfolded once. */
  lemma AdmittedSnoc(queue: seq<Article>, incoming: seq<Article>, a: Article)
    ensures Admitted(queue, incoming + [a]) ==
              var q := Admitted(queue, incoming); if a.hash in Hashes(q) then q else q + [a]
  {
    assert (incoming + [a])[..|incoming|] == incoming;
  }

  /** The old queue stays in front and in order; what follows it are incoming
      articles whose fingerprints were not in the old queue. */
  lemma {:induction false} AdmittedExtends(queue: seq<Article>, incoming: seq<Article>)
    ensures |queue| <= |Admitted(queue, incoming)| <= |queue| + |incoming|
    ensures Admitted(queue, incoming)[..|queue|] == queue
    ensures forall i :: |queue| <= i < |Admitted(queue, incoming)| ==>
              Admitted(queue, incoming)[i] in incoming && Admitted(queue, incoming)[i].hash !in Hashes(queue)
  {
    if incoming != [] {
      var front := incoming[..|incoming| - 1];
      AdmittedExtends(queue, front);
      var q := Admitted(queue, front);
      var a := incoming[|incoming| - 1];
      if a.hash !in Hashes(q) {
        forall k | 0 <= k < |queue| ensures queue[k].hash != a.hash {
          assert Hashes(q)[k] == queue[k].hash;
        }
      }
    }
  }

  /** Every newly found article's fingerprint ends up in the queue. */
  lemma {:induction false} AdmittedCovers(queue: seq<Article>, incoming: seq<Article>)
    ensures forall a :: a in incoming ==> a.hash in Hashes(Admitted(queue, incoming))
  {
    if incoming != [] {
      var front := incoming[..|incoming| - 1];
      AdmittedCovers(queue, front);
      AdmittedExtends(queue, front);
      var q := Admitted(queue, front);
      var r := Admitted(queue, incoming);
      assert q == r[..|q|];
      forall a | a in incoming ensures a.hash in Hashes(r) {
        if a in front {
          var k :| 0 <= k < |q| && Hashes(q)[k] == a.hash;
          assert Hashes(r)[k] == a.hash;
        } else if r != q {
          assert Hashes(r)[|q|] == a.hash;
        }
      }
    }
  }

  /** A queue without repeated fingerprints keeps that property. */
  lemma {:induction false} AdmittedDistinct(queue: seq<Article>, incoming: seq<Article>)
    requires DistinctHashes(queue)
    ensures DistinctHashes(Admitted(queue, incoming))
  {
    if incoming != [] {
      var front := incoming[..|incoming| - 1];
      AdmittedDistinct(queue, front);
      var q := Admitted(queue, front);
      var a := incoming[|incoming| - 1];
      if a.hash !in Hashes(q) {
        forall i | 0 <= i < |q| ensures q[i].hash != a.hash {
          assert Hashes(q)[i] == q[i].hash;
        }
      }
    }
  }

  /** Admitting articles whose fingerprints are all queued changes nothing. */
  lemma {:induction false} AdmittedAllQueued(queue: seq<Article>, incoming: seq<Article>)
    requires forall a :: a in incoming ==> a.hash in Hashes(queue)
    ensures Admitted(queue, incoming) == queue
  {
    if incoming != [] {
      AdmittedAllQueued(queue, incoming[..|incoming| - 1]);
    }
  }

  /** Admitting the same articles a second time changes nothing. */
  lemma AdmittedIdempotent(queue: seq<Article>, incoming: seq<Article>)
    ensures Admitted(Admitted(queue, incoming), incoming) == Admitted(queue, incoming)
  {
    AdmittedCovers(queue, incoming);
    AdmittedAllQueued(Admitted(queue, incoming), incoming);
  }

  /** Admitting two runs of articles one after the other is admitting
      their concatenation. */
  lemma {:induction false} AdmittedConcat(queue: seq<Article>, xs: seq<Article>, ys: seq<Article>)
    ensures Admitted(queue, xs + ys) == Admitted(Admitted(queue, xs), ys)
  {
    if ys == [] {
      assert xs + ys == xs;
    } else {
      var front := ys[..|ys| - 1];
      AdmittedConcat(queue, xs, front);
      assert xs + ys == (xs + front) + [ys[|ys| - 1]];
      AdmittedSnoc(queue, xs + front, ys[|ys| - 1]);
    }
  }

  /** The sort key `lambda x: x['priority_score']`. */
  function ScoreKey(a: Article): int
  {
    a.priorityScore
  }

  /** `sorted(queue, key=..., reverse=True)`. */
  function SortByScore(s: seq<Article>): seq<Article>
  {
    SortDesc(s, ScoreKey)
  }

  /** `s` without its `k`-th element keeps the other elements, in order. */
  lemma RemoveAt(s: seq<Article>, k: int)
    requires 0 <= k < |s|
    ensures multiset(s[..k] + s[k + 1..]) == multiset(s) - multiset{s[k]}
    ensures forall m :: 0 <= m < k ==> (s[..k] + s[k + 1..])[m] == s[m]
    ensures forall m :: k < m < |s| ==> (s[..k] + s[k + 1..])[m - 1] == s[m]
  {
    var front, back := s[..k], s[k + 1..];
    assert s == front + ([s[k]] + back);
    assert multiset(s) == multiset(front) + multiset{s[k]} + multiset(back);
    forall m | k < m < |s| ensures (front + back)[m - 1] == s[m] {
      assert (front + back)[m - 1] == back[m - 1 - k];
    }
  }

  lemma DistinctRemoveAt(s: seq<Article>, k: int)
    requires 0 <= k < |s| && DistinctHashes(s)
    ensures DistinctHashes(s[..k] + s[k + 1..])
  {
    var r := s[..k] + s[k + 1..];
    forall i, j | 0 <= i < j < |r| ensures r[i].hash != r[j].hash {
      var i0 := if i < k then i else i + 1;
      var j0 := if j < k then j else j + 1;
      assert r[i] == s[i0] && r[j] == s[j0];
    }
  }

  /** Appending an article whose fingerprint is new keeps the fingerprints
      distinct. */
  lemma DistinctSnoc(s: seq<Article>, x: Article)
    requires DistinctHashes(s)
    requires forall i :: 0 <= i < |s| ==> s[i].hash != x.hash
    ensures DistinctHashes(s + [x])
  {
  }

  /** In a sequence without repeated fingerprints, a rearrangement of the
      other elements holds none with the fingerprint of the `k`-th. */
  lemma OthersDiffer(s: seq<Article>, k: int, t: seq<Article>)
    requires 0 <= k < |s| && DistinctHashes(s)
    requires multiset(s[..k] + s[k + 1..]) == multiset(t)
    ensures forall i :: 0 <= i < |t| ==> t[i].hash != s[k].hash
  {
    var r := s[..k] + s[k + 1..];
    RemoveAt(s, k);
    forall i | 0 <= i < |t| ensures t[i].hash != s[k].hash {
      assert t[i] in multiset(r);
      var m :| 0 <= m < |r| && r[m] == t[i];
      if m >= k {
        assert r[m] == s[m + 1];
      }
    }
  }

  /** A rearrangement of a sequence without repeated fingerprints has none. */
  lemma {:induction false} PermutationKeepsDistinct(s: seq<Article>, t: seq<Article>)
    requires multiset(s) == multiset(t)
    requires DistinctHashes(s)
    ensures DistinctHashes(t)
  {
    if t != [] {
      var x := t[|t| - 1];
      var t' := t[..|t| - 1];
      assert t == t' + [x];
      assert x in multiset(s);
      var k :| 0 <= k < |s| && s[k] == x;
      RemoveAt(s, k);
      DistinctRemoveAt(s, k);
      assert multiset(s[..k] + s[k + 1..]) == multiset(t');
      PermutationKeepsDistinct(s[..k] + s[k + 1..], t');
      OthersDiffer(s, k, t');
      DistinctSnoc(t', x);
    }
  }

  /** Sorting by score keeps every article exactly once, orders the queue by
      score (highest first), keeps equal scores in queue order, and keeps the
      fingerprints distinct. */
  lemma SortByScoreFacts(s: seq<Article>, v: int)
    ensures multiset(SortByScore(s)) == multiset(s)
    ensures SortedDesc(SortByScore(s), ScoreKey)
    ensures WithKey(SortByScore(s), ScoreKey, v) == WithKey(s, ScoreKey, v)
    ensures DistinctHashes(s) ==> DistinctHashes(SortByScore(s))
  {
    SortDescStable(s, ScoreKey, v);
    if DistinctHashes(s) {
      PermutationKeepsDistinct(s, SortByScore(s));
    }
  }
}
