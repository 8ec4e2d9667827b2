/** The ranking of the day's phrases (`get_top_meaningful_phrases`): the
    stripped phrases of at least four characters are counted, and the
    `n` most frequent are returned, most frequent first, ties in order of
    first appearance. */
module Phrases {
  import opened Fingerprint
  import opened Sorting

  /** Shortest phrase, after stripping, that is counted. */
  const MIN_PHRASE_LENGTH: int := 4

  /** One `(phrase, count)` pair of `most_common`. */
  datatype PhraseCount = PhraseCount(phrase: string, count: nat)

  /** The phrases that are counted: non-empty, and at least four characters
      long once stripped; each one stripped. */
  function Normalized(all: seq<string>): seq<string>
  {
    if all == [] then []
    else
      var p := all[|all| - 1];
      Normalized(all[..|all| - 1]) + (if p != "" && |Strip(p)| >= MIN_PHRASE_LENGTH then [Strip(p)] else [])
  }

  /** The distinct elements of `s` in order of first appearance, the key
      order of `Counter(s)`. */
  function FirstAppearances(s: seq<string>): seq<string>
  {
    if s == [] then []
    else
      var front := s[..|s| - 1];
      FirstAppearances(front) + (if s[|s| - 1] in front then [] else [s[|s| - 1]])
  }

  /** `Counter(s).items()`. */
  function Counted(s: seq<string>): seq<PhraseCount>
  {
    var keys := FirstAppearances(s);
    seq(|keys|, i requires 0 <= i < |keys| => PhraseCount(keys[i], multiset(s)[keys[i]]))
  }

  function CountKey(pc: PhraseCount): int
  {
    pc.count
  }

  /** `get_top_meaningful_phrases(all, n)`: `most_common(n)` is the stable
      sort of the items by count, largest first, cut after `n`. */
  function TopPhrases(all: seq<string>, n: nat): seq<PhraseCount>
  {
    if all == [] then []
    else
      var normalized := Normalized(all);
      if normalized == [] then []
      else Best(normalized, n)
  }

  /** Every counted phrase is the stripped form of a long enough input
      phrase, and every such form is counted. */
  lemma {:induction false} NormalizedMembers(all: seq<string>, x: string)
    ensures x in Normalized(all) <==>
              exists p :: p in all && p != "" && |Strip(p)| >= MIN_PHRASE_LENGTH && x == Strip(p)
  {
    if all != [] {
      var front := all[..|all| - 1];
      NormalizedMembers(front, x);
      assert all == front + [all[|all| - 1]];
    }
  }

  /** The keys of the counter: each element once, nothing else. */
  lemma {:induction false} FirstAppearancesFacts(s: seq<string>)
    ensures forall x :: x in FirstAppearances(s) <==> x in s
    ensures forall i, j :: 0 <= i < j < |FirstAppearances(s)| ==> FirstAppearances(s)[i] != FirstAppearances(s)[j]
  {
    if s != [] {
      var front := s[..|s| - 1];
      FirstAppearancesFacts(front);
      assert s == front + [s[|s| - 1]];
    }
  }

  /** Every item of the counter is a phrase with its number of
      occurrences, each phrase appears once, and every phrase has an item. */
  lemma CountedFacts(s: seq<string>)
    ensures forall i :: 0 <= i < |Counted(s)| ==> Counted(s)[i].count == multiset(s)[Counted(s)[i].phrase] >= 1
    ensures forall i, j :: 0 <= i < j < |Counted(s)| ==> Counted(s)[i].phrase != Counted(s)[j].phrase
    ensures forall x :: x in s ==> exists i :: 0 <= i < |Counted(s)| && Counted(s)[i].phrase == x
  {
    FirstAppearancesFacts(s);
    var keys := FirstAppearances(s);
    forall i | 0 <= i < |keys| ensures multiset(s)[keys[i]] >= 1 {
      assert keys[i] in s;
    }
    forall x | x in s ensures exists i :: 0 <= i < |Counted(s)| && Counted(s)[i].phrase == x {
      var i :| 0 <= i < |keys| && keys[i] == x;
      assert Counted(s)[i].phrase == x;
    }
  }

  /** Items with distinct phrases are distinct items. */
  lemma CountedElementsDistinct(s: seq<string>)
    ensures forall i, j :: 0 <= i < j < |Counted(s)| ==> Counted(s)[i] != Counted(s)[j]
  {
    CountedFacts(s);
  }

  /** No element occurs twice in a sequence without repeats. */
  lemma {:induction false} CountAtMostOne<T>(s: seq<T>)
    requires forall i, j :: 0 <= i < j < |s| ==> s[i] != s[j]
    ensures forall x :: multiset(s)[x] <= 1
  {
    if s != [] {
      var front, last := s[..|s| - 1], s[|s| - 1];
      assert s == front + [last];
      CountAtMostOne(front);
      assert last !in front;
    }
  }

  /** An element at two positions occurs at least twice. */
  lemma TwoPositions<T>(t: seq<T>, i: int, j: int)
    requires 0 <= i < j < |t|
    ensures t[i] == t[j] ==> multiset(t)[t[i]] >= 2
  {
    assert t == t[..j] + [t[j]] + t[j + 1..];
    assert t[i] == t[..j][i];
  }

  /** A rearrangement of a sequence without repeats has none. */
  lemma PermutationDistinct<T>(s: seq<T>, t: seq<T>)
    requires multiset(s) == multiset(t)
    requires forall i, j :: 0 <= i < j < |s| ==> s[i] != s[j]
    ensures forall i, j :: 0 <= i < j < |t| ==> t[i] != t[j]
  {
    CountAtMostOne(s);
    forall i, j | 0 <= i < j < |t| ensures t[i] != t[j] {
      TwoPositions(t, i, j);
    }
  }

  /** The best `n` items of the counter of `s`. */
  function Best(s: seq<string>, n: nat): seq<PhraseCount>
  {
    Take(SortDesc(Counted(s), CountKey), n)
  }

  /** Each best item is a phrase of `s` with its true count. */
  lemma BestCounts(s: seq<string>, n: nat)
    ensures |Best(s, n)| <= n
    ensures SortedDesc(Best(s, n), CountKey)
    ensures forall i :: 0 <= i < |Best(s, n)| ==>
              Best(s, n)[i].phrase in s && Best(s, n)[i].count == multiset(s)[Best(s, n)[i].phrase]
  {
    var c := Counted(s);
    var sorted := SortDesc(c, CountKey);
    var r := Best(s, n);
    CountedFacts(s);
    FirstAppearancesFacts(s);
    TakeSorted(sorted, CountKey, |r|);
    forall i | 0 <= i < |r|
      ensures r[i].phrase in s && r[i].count == multiset(s)[r[i].phrase]
    {
      assert r[i] == sorted[i];
      assert r[i] in multiset(c);
      var k :| 0 <= k < |c| && c[k] == r[i];
      assert c[k].phrase in FirstAppearances(s);
    }
  }

  /** No phrase is among the best twice. */
  lemma BestDistinct(s: seq<string>, n: nat)
    ensures forall i, j :: 0 <= i < j < |Best(s, n)| ==> Best(s, n)[i].phrase != Best(s, n)[j].phrase
  {
    var c := Counted(s);
    var sorted := SortDesc(c, CountKey);
    var r := Best(s, n);
    CountedFacts(s);
    CountedElementsDistinct(s);
    PermutationDistinct(c, sorted);
    forall i, j | 0 <= i < j < |r| ensures r[i].phrase != r[j].phrase {
      assert r[i] == sorted[i] && r[j] == sorted[j];
      assert r[i] in multiset(c) && r[j] in multiset(c);
      var ki :| 0 <= ki < |c| && c[ki] == r[i];
      var kj :| 0 <= kj < |c| && c[kj] == r[j];
      assert sorted[i] != sorted[j];
    }
  }

  /** A phrase of `s` left out of the best occurs no more often than any
      phrase kept, and then `n` were kept. */
  lemma BestComplete(s: seq<string>, n: nat, x: string)
    requires x in s && forall i :: 0 <= i < |Best(s, n)| ==> Best(s, n)[i].phrase != x
    ensures |Best(s, n)| == n
    ensures forall i :: 0 <= i < n ==> Best(s, n)[i].count >= multiset(s)[x]
  {
    var c := Counted(s);
    var sorted := SortDesc(c, CountKey);
    CountedFacts(s);
    var k :| 0 <= k < |c| && c[k].phrase == x;
    assert c[k] in multiset(c);
    assert c[k] in multiset(sorted);
    assert c[k] in sorted;
    assert Take(sorted, n) == Best(s, n);
    forall i | 0 <= i < |Best(s, n)| ensures Best(s, n)[i] != c[k] {
      assert Best(s, n)[i].phrase != x;
    }
    PrefixDominates(sorted, CountKey, n, c[k]);
  }

  /** What the source promises of its top phrases: at most `n`, most
      frequent first, with their true counts, no phrase twice; and any
      counted phrase left out occurs no more often than each one returned,
      which can only happen when `n` were returned. */
  lemma TopPhrasesFacts(all: seq<string>, n: nat)
    ensures |TopPhrases(all, n)| <= n
    ensures SortedDesc(TopPhrases(all, n), CountKey)
    ensures forall i :: 0 <= i < |TopPhrases(all, n)| ==>
              TopPhrases(all, n)[i].phrase in Normalized(all)
              && TopPhrases(all, n)[i].count == multiset(Normalized(all))[TopPhrases(all, n)[i].phrase]
    ensures forall i, j :: 0 <= i < j < |TopPhrases(all, n)| ==>
              TopPhrases(all, n)[i].phrase != TopPhrases(all, n)[j].phrase
    ensures forall x :: x in Normalized(all) && (forall i :: 0 <= i < |TopPhrases(all, n)| ==> TopPhrases(all, n)[i].phrase != x) ==>
              |TopPhrases(all, n)| == n
              && forall i :: 0 <= i < n ==> TopPhrases(all, n)[i].count >= multiset(Normalized(all))[x]
  {
    var normalized := Normalized(all);
    if all != [] && normalized != [] {
      assert TopPhrases(all, n) == Best(normalized, n);
      BestCounts(normalized, n);
      BestDistinct(normalized, n);
      forall x | x in normalized && (forall i :: 0 <= i < |Best(normalized, n)| ==> Best(normalized, n)[i].phrase != x)
        ensures |Best(normalized, n)| == n
        ensures forall i :: 0 <= i < n ==> Best(normalized, n)[i].count >= multiset(normalized)[x]
      {
        BestComplete(normalized, n, x);
      }
    } else if all != [] {
      assert normalized == [];
    }
  }
}
