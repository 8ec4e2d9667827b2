/** The keyword gate and the priority scorer (`has_core_keywords`,
    `calculate_priority_score`) with their static configuration. */
module Scoring {

  /** Terms of which at least one must occur for an article to be kept at all. */
  const CORE_KEYWORDS: seq<string> := [
    "碳酸盐岩", "carbonate", "carbonate rock", "limestone", "灰岩", "白云岩", "dolomite", "dolomitic",
    "微生物矿化", "microbialite", "microbial mineralization", "biomineralization", "microbial carbonate",
    "天然氢", "natural hydrogen", "白氢", "white hydrogen", "native hydrogen", "geological hydrogen",
    "大洋氧化", "ocean oxidation", "ocean redox", "oceanic oxidation", "marine oxidation", "redox evolution"
  ]

  /** Terms that only raise the rank of an article that is already kept. */
  const AUXILIARY_KEYWORDS: seq<string> := [
    "反应网络", "reaction network", "reacnetgenerator", "分子动力学", "molecular dynamics", "MD simulation",
    "机器学习", "machine learning", "AI", "artificial intelligence", "生成式AI", "generative AI",
    "数据挖掘", "data mining", "深度学习", "deep learning", "神经网络", "neural network",
    "地球化学", "geochemistry", "矿化", "mineralization", "沉积", "sedimentary",
    "古环境", "paleoenvironment", "成岩", "diagenesis", "黄铁矿", "pyrite",
    "氧化", "oxidation", "氧", "oxygen", "海洋", "marine", "deep sea",
    "simulation", "modeling", "computational", "numerical", "fold", "folding",
    "构造", "structure", "tectonics", "地层", "stratigraphy", "deformation"
  ]

  /** Journal tier to additive weight; the empty tier is also the default. */
  const ZONE_WEIGHTS: map<string, int> := map["1区" := 50, "2区" := 30, "3区" := 20, "4区" := 10, "" := 15]

  /** Weight of one core keyword hit; an auxiliary hit weighs 1. */
  const CORE_WEIGHT: int := 10

  /** Lower-casing of one character, for the ASCII letters. */
  function LowerChar(c: char): (d: char)
    ensures 'A' <= c <= 'Z' ==> 'a' <= d <= 'z' && d as int - c as int == 32
    ensures !('A' <= c <= 'Z') ==> d == c
  {
    if 'A' <= c <= 'Z' then (c as int + 32) as char else c
  }

  /** `str.lower()`, restricted to the ASCII letters. */
  function Lower(s: string): (r: string)
    ensures |r| == |s|
    ensures forall i :: 0 <= i < |s| ==> r[i] == LowerChar(s[i])
  {
    seq(|s|, i requires 0 <= i < |s| => LowerChar(s[i]))
  }

  /** Python's `p in s` on strings: `p` occurs in `s` as a contiguous slice. */
  predicate Contains(s: string, p: string)
  {
    exists i :: 0 <= i <= |s| - |p| && OccursAt(s, p, i)
  }

  /** `p` occurs in `s` starting at index `i`. */
  predicate OccursAt(s: string, p: string, i: int)
  {
    0 <= i <= |s| - |p| && s[i..i + |p|] == p
  }

  /** Whether the `i`-th keyword of `keys`, lower-cased, occurs in `textLower`. */
  predicate Hit(keys: seq<string>, i: int, textLower: string)
    requires 0 <= i < |keys|
  {
    Contains(textLower, Lower(keys[i]))
  }

  /** The number of keywords of `keys` that occur in `textLower` (the
      generator sums of `calculate_priority_score`). */
  function CountMatches(keys: seq<string>, textLower: string): (n: nat)
    ensures n <= |keys|
  {
    if keys == [] then 0
    else CountMatches(keys[..|keys| - 1], textLower) + (if Hit(keys, |keys| - 1, textLower) then 1 else 0)
  }

  /** No keyword counted exactly when none occurs; all counted exactly when
      all occur. */
  lemma {:induction false} CountMatchesExtremes(keys: seq<string>, textLower: string)
    ensures CountMatches(keys, textLower) == 0 <==> forall i :: 0 <= i < |keys| ==> !Hit(keys, i, textLower)
    ensures CountMatches(keys, textLower) == |keys| <==> forall i :: 0 <= i < |keys| ==> Hit(keys, i, textLower)
  {
    if keys != [] {
      var front := keys[..|keys| - 1];
      assert forall i :: 0 <= i < |front| ==> (Hit(front, i, textLower) <==> Hit(keys, i, textLower));
      CountMatchesExtremes(front, textLower);
    }
  }

  /** `has_core_keywords`: some core keyword occurs in the lower-cased text. */
  predicate HasCoreKeywords(text: string)
  {
    exists i :: 0 <= i < |CORE_KEYWORDS| && Hit(CORE_KEYWORDS, i, Lower(text))
  }

  /** `ZONE_WEIGHTS.get(zone, ZONE_WEIGHTS[""])`. */
  function ZoneWeight(zone: string): (w: int)
    ensures w == (if zone == "1区" then 50 else if zone == "2区" then 30
                  else if zone == "3区" then 20 else if zone == "4区" then 10 else 15)
  {
    if zone in ZONE_WEIGHTS then ZONE_WEIGHTS[zone] else ZONE_WEIGHTS[""]
  }

  /** The four values `calculate_priority_score` returns. */
  datatype Score = Score(priority: int, coreMatches: nat, auxMatches: nat, zoneWeight: int)

  /** `calculate_priority_score(text, zone)`. */
  function CalculatePriorityScore(text: string, zone: string := ""): (r: Score)
    ensures r.priority == r.coreMatches * CORE_WEIGHT + r.auxMatches + r.zoneWeight
    ensures r.coreMatches <= |CORE_KEYWORDS| && r.auxMatches <= |AUXILIARY_KEYWORDS|
    ensures r.zoneWeight == ZoneWeight(zone)
  {
    var textLower := Lower(text);
    var core := CountMatches(CORE_KEYWORDS, textLower);
    var aux := CountMatches(AUXILIARY_KEYWORDS, textLower);
    Score(core * CORE_WEIGHT + aux + ZoneWeight(zone), core, aux, ZoneWeight(zone))
  }

  /** The gate and the scorer agree: `has_core_keywords` holds exactly when
      the score reports at least one core match. */
  lemma GateAgreesWithScore(text: string, zone: string)
    ensures CalculatePriorityScore(text, zone).coreMatches >= 1 <==> HasCoreKeywords(text)
  {
    CountMatchesExtremes(CORE_KEYWORDS, Lower(text));
  }

  /** Lower-casing distributes over concatenation. */
  lemma LowerConcat(a: string, b: string)
    ensures Lower(a + b) == Lower(a) + Lower(b)
  {
    assert forall i :: 0 <= i < |a + b| ==> Lower(a + b)[i] == (Lower(a) + Lower(b))[i] by {
      forall i | 0 <= i < |a + b| ensures Lower(a + b)[i] == (Lower(a) + Lower(b))[i] {
        if i < |a| { assert (a + b)[i] == a[i]; } else { assert (a + b)[i] == b[i - |a|]; }
      }
    }
  }

  /** A slice present in `a` is still present once `b` is appended. */
  lemma ContainsAppend(a: string, b: string, p: string)
    requires Contains(a, p)
    ensures Contains(a + b, p)
  {
    var i :| 0 <= i <= |a| - |p| && OccursAt(a, p, i);
    assert (a + b)[i..i + |p|] == a[i..i + |p|];
    assert OccursAt(a + b, p, i);
  }

  /** More matched keywords never means fewer counted ones. */
  lemma {:induction false} CountMonotone(keys: seq<string>, a: string, b: string)
    requires forall i :: 0 <= i < |keys| && Hit(keys, i, a) ==> Hit(keys, i, b)
    ensures CountMatches(keys, a) <= CountMatches(keys, b)
  {
    if keys != [] {
      var front := keys[..|keys| - 1];
      assert forall i :: 0 <= i < |front| ==> (Hit(front, i, a) <==> Hit(keys, i, a));
      assert forall i :: 0 <= i < |front| ==> (Hit(front, i, b) <==> Hit(keys, i, b));
      CountMonotone(front, a, b);
    }
  }

  /** If `b` matches exactly the keywords `a` matches plus keyword `j`, the
      count grows by exactly one. */
  lemma {:induction false} CountOneMore(keys: seq<string>, a: string, b: string, j: int)
    requires 0 <= j < |keys| && !Hit(keys, j, a) && Hit(keys, j, b)
    requires forall i :: 0 <= i < |keys| && i != j ==> (Hit(keys, i, a) <==> Hit(keys, i, b))
    ensures CountMatches(keys, b) == CountMatches(keys, a) + 1
  {
    var front := keys[..|keys| - 1];
    assert forall i :: 0 <= i < |front| ==> (Hit(front, i, a) <==> Hit(keys, i, a));
    assert forall i :: 0 <= i < |front| ==> (Hit(front, i, b) <==> Hit(keys, i, b));
    if j == |keys| - 1 {
      CountSame(front, a, b);
    } else {
      CountOneMore(front, a, b, j);
    }
  }

  /** Texts that match the same keywords have the same count. */
  lemma CountSame(keys: seq<string>, a: string, b: string)
    requires forall i :: 0 <= i < |keys| ==> (Hit(keys, i, a) <==> Hit(keys, i, b))
    ensures CountMatches(keys, a) == CountMatches(keys, b)
  {
    CountMonotone(keys, a, b);
    CountMonotone(keys, b, a);
  }

  /** Appending text to an article never lowers its score nor any of its
      match counts. */
  lemma ScoreMonotoneOnAppend(text: string, more: string, zone: string)
    ensures CalculatePriorityScore(text, zone).coreMatches <= CalculatePriorityScore(text + more, zone).coreMatches
    ensures CalculatePriorityScore(text, zone).auxMatches <= CalculatePriorityScore(text + more, zone).auxMatches
    ensures CalculatePriorityScore(text, zone).priority <= CalculatePriorityScore(text + more, zone).priority
  {
    LowerConcat(text, more);
    forall i | 0 <= i < |CORE_KEYWORDS| && Hit(CORE_KEYWORDS, i, Lower(text))
      ensures Hit(CORE_KEYWORDS, i, Lower(text + more))
    {
      ContainsAppend(Lower(text), Lower(more), Lower(CORE_KEYWORDS[i]));
    }
    forall i | 0 <= i < |AUXILIARY_KEYWORDS| && Hit(AUXILIARY_KEYWORDS, i, Lower(text))
      ensures Hit(AUXILIARY_KEYWORDS, i, Lower(text + more))
    {
      ContainsAppend(Lower(text), Lower(more), Lower(AUXILIARY_KEYWORDS[i]));
    }
    CountMonotone(CORE_KEYWORDS, Lower(text), Lower(text + more));
    CountMonotone(AUXILIARY_KEYWORDS, Lower(text), Lower(text + more));
  }

  /** One more matched core keyword, all else equal, adds exactly 10. */
  lemma ScoreCoreStep(a: string, b: string, zone: string, j: int)
    requires 0 <= j < |CORE_KEYWORDS|
    requires !Hit(CORE_KEYWORDS, j, Lower(a)) && Hit(CORE_KEYWORDS, j, Lower(b))
    requires forall i :: 0 <= i < |CORE_KEYWORDS| && i != j ==>
               (Hit(CORE_KEYWORDS, i, Lower(a)) <==> Hit(CORE_KEYWORDS, i, Lower(b)))
    requires forall i :: 0 <= i < |AUXILIARY_KEYWORDS| ==>
               (Hit(AUXILIARY_KEYWORDS, i, Lower(a)) <==> Hit(AUXILIARY_KEYWORDS, i, Lower(b)))
    ensures CalculatePriorityScore(b, zone).priority == CalculatePriorityScore(a, zone).priority + 10
  {
    CountOneMore(CORE_KEYWORDS, Lower(a), Lower(b), j);
    CountSame(AUXILIARY_KEYWORDS, Lower(a), Lower(b));
  }

  /** One more matched auxiliary keyword, all else equal, adds exactly 1. */
  lemma ScoreAuxStep(a: string, b: string, zone: string, j: int)
    requires 0 <= j < |AUXILIARY_KEYWORDS|
    requires !Hit(AUXILIARY_KEYWORDS, j, Lower(a)) && Hit(AUXILIARY_KEYWORDS, j, Lower(b))
    requires forall i :: 0 <= i < |AUXILIARY_KEYWORDS| && i != j ==>
               (Hit(AUXILIARY_KEYWORDS, i, Lower(a)) <==> Hit(AUXILIARY_KEYWORDS, i, Lower(b)))
    requires forall i :: 0 <= i < |CORE_KEYWORDS| ==>
               (Hit(CORE_KEYWORDS, i, Lower(a)) <==> Hit(CORE_KEYWORDS, i, Lower(b)))
    ensures CalculatePriorityScore(b, zone).priority == CalculatePriorityScore(a, zone).priority + 1
  {
    CountOneMore(AUXILIARY_KEYWORDS, Lower(a), Lower(b), j);
    CountSame(CORE_KEYWORDS, Lower(a), Lower(b));
  }

  /** A text whose score shows auxiliary matches but no core match fails
      the gate, however many auxiliary keywords it holds, and a text that
      passes the gate scores at least 10 above its tier weight. */
  lemma GateNeedsCore(text: string, zone: string)
    ensures (CalculatePriorityScore(text, zone).auxMatches >= 1 && CalculatePriorityScore(text, zone).coreMatches == 0)
            ==> !HasCoreKeywords(text)
    ensures HasCoreKeywords(text) ==>
              CalculatePriorityScore(text, zone).priority >= CORE_WEIGHT + ZoneWeight(zone)
  {
    GateAgreesWithScore(text, zone);
  }
}
