/** The backlog backfill (`find_historical_articles`): when today's first
    batch is short, articles left in earlier queues and never pushed are
    offered in its place, best score first. */
module Backlog {
  import opened Fingerprint
  import opened History
  import opened Articles
  import opened Sorting
  import opened Queue

  /** Every fingerprint listed under any date of the history. */
  function AllPushed(pushed: PushHistory): set<Hash>
  {
    set d, h | d in pushed && h in pushed[d] :: h
  }

  /** The fingerprints in today's queue, if there is one. */
  function TodayHashes(schedule: Schedule, today: Day): set<Hash>
  {
    if today in schedule then set a | a in schedule[today] :: a.hash else {}
  }

  /** The fingerprints a backfilled article must avoid. */
  function Excluded(pushed: PushHistory, schedule: Schedule, today: Day): set<Hash>
  {
    AllPushed(pushed) + TodayHashes(schedule, today)
  }

  /** The articles of `s` whose fingerprint is not excluded, in order. */
  function Unseen(s: seq<Article>, excluded: set<Hash>): seq<Article>
  {
    if s == [] then []
    else Unseen(s[..|s| - 1], excluded) + (if s[|s| - 1].hash in excluded then [] else [s[|s| - 1]])
  }

  /** The backup-file pass: each backup list in turn, filtered. */
  function UnseenAll(lists: seq<seq<Article>>, excluded: set<Hash>): seq<Article>
  {
    if lists == [] then []
    else UnseenAll(lists[..|lists| - 1], excluded) + Unseen(lists[|lists| - 1], excluded)
  }

  /** The largest day of a non-empty set of days. */
  ghost function MaxDay(ks: set<Day>): (m: Day)
    requires ks != {}
    ensures m in ks && forall k :: k in ks ==> k <= m
  {
    assert |ks| != 0;
    var x :| x in ks;
    var rest := ks - {x};
    assert forall k :: k in ks ==> k == x || k in rest;
    if rest == {} then x
    else
      var y := MaxDay(rest);
      if x >= y then x else y
  }

  /** The smallest day of a non-empty set of days. */
  ghost function MinDay(ks: set<Day>): (m: Day)
    requires ks != {}
    ensures m in ks && forall k :: k in ks ==> m <= k
  {
    assert |ks| != 0;
    var x :| x in ks;
    var rest := ks - {x};
    assert forall k :: k in ks ==> k == x || k in rest;
    if rest == {} then x
    else
      var y := MinDay(rest);
      if x <= y then x else y
  }

  /** `sorted(ks)`: the days of `ks` in increasing order. */
  ghost function SortedDays(ks: set<Day>): seq<Day>
  {
    if ks == {} then []
    else
      var m := MaxDay(ks);
      SortedDays(ks - {m}) + [m]
  }

  /** `sorted` lists every day of the set once, in increasing order. */
  lemma {:induction false} SortedDaysFacts(ks: set<Day>)
    ensures forall d :: d in SortedDays(ks) <==> d in ks
    ensures forall i, j :: 0 <= i < j < |SortedDays(ks)| ==> SortedDays(ks)[i] < SortedDays(ks)[j]
  {
    if ks != {} {
      var m := MaxDay(ks);
      SortedDaysFacts(ks - {m});
      var rest := SortedDays(ks - {m});
      assert SortedDays(ks) == rest + [m];
      forall i | 0 <= i < |rest| ensures rest[i] < m {
        assert rest[i] in ks - {m};
      }
    }
  }

  /** Adding a day later than all others puts it at the end. */
  lemma SortedDaysSnoc(ks: set<Day>, m: Day)
    requires forall k :: k in ks ==> k < m
    ensures SortedDays(ks + {m}) == SortedDays(ks) + [m]
  {
    assert MaxDay(ks + {m}) == m;
    assert (ks + {m}) - {m} == ks;
  }

  /** The schedule pass over the days `days`: the filtered queue of every
      day before `today`, day after day. */
  function PastPass(schedule: Schedule, days: seq<Day>, today: Day, excluded: set<Hash>): seq<Article>
  {
    if days == [] then []
    else
      var d := days[|days| - 1];
      PastPass(schedule, days[..|days| - 1], today, excluded)
        + (if d < today && d in schedule then Unseen(schedule[d], excluded) else [])
  }

  /** The candidates as the source collects them: the backup lists, and the
      past queues only while the backups fall short. */
  ghost function CandidatesAsWritten(pushed: PushHistory, schedule: Schedule, backups: seq<seq<Article>>,
                                     today: Day, needed: int): seq<Article>
  {
    var ex := Excluded(pushed, schedule, today);
    var fromBackups := UnseenAll(backups, ex);
    if |fromBackups| < needed then fromBackups + PastPass(schedule, SortedDays(schedule.Keys), today, ex)
    else fromBackups
  }

  /** `find_historical_articles` as written. */
  ghost function BackfillAsWritten(pushed: PushHistory, schedule: Schedule, backups: seq<seq<Article>>,
                                   today: Day, needed: int): seq<Article>
  {
    if needed <= 0 then []
    else Take(SortByScore(CandidatesAsWritten(pushed, schedule, backups, today, needed)), needed)
  }

  /** The candidates with a fingerprint collected once only. */
  ghost function Candidates(pushed: PushHistory, schedule: Schedule, backups: seq<seq<Article>>,
                            today: Day, needed: int): seq<Article>
  {
    var ex := Excluded(pushed, schedule, today);
    var fromBackups := Admitted([], UnseenAll(backups, ex));
    if |fromBackups| < needed then Admitted(fromBackups, PastPass(schedule, SortedDays(schedule.Keys), today, ex))
    else fromBackups
  }

  /** `find_historical_articles`, never offering one fingerprint twice. */
  ghost function Backfill(pushed: PushHistory, schedule: Schedule, backups: seq<seq<Article>>,
                          today: Day, needed: int): seq<Article>
  {
    if needed <= 0 then []
    else Take(SortByScore(Candidates(pushed, schedule, backups, today, needed)), needed)
  }

  lemma UnseenSnoc(s: seq<Article>, a: Article, excluded: set<Hash>)
    ensures Unseen(s + [a], excluded) == Unseen(s, excluded) + (if a.hash in excluded then [] else [a])
  {
    assert (s + [a])[..|s|] == s;
  }

  lemma {:induction false} UnseenMembers(s: seq<Article>, excluded: set<Hash>)
    ensures forall a :: a in Unseen(s, excluded) <==> a in s && a.hash !in excluded
  {
    if s != [] {
      UnseenMembers(s[..|s| - 1], excluded);
      assert s == s[..|s| - 1] + [s[|s| - 1]];
    }
  }

  lemma {:induction false} UnseenAllMembers(lists: seq<seq<Article>>, excluded: set<Hash>, a: Article)
    requires a in UnseenAll(lists, excluded)
    ensures a.hash !in excluded
    ensures exists i :: 0 <= i < |lists| && a in lists[i]
  {
    var front := lists[..|lists| - 1];
    var last := lists[|lists| - 1];
    UnseenMembers(last, excluded);
    if a in UnseenAll(front, excluded) {
      UnseenAllMembers(front, excluded, a);
      var i :| 0 <= i < |front| && a in front[i];
      assert lists[i] == front[i];
    } else {
      assert a in lists[|lists| - 1];
    }
  }

  lemma PastPassSnoc(schedule: Schedule, days: seq<Day>, d: Day, today: Day, excluded: set<Hash>)
    ensures PastPass(schedule, days + [d], today, excluded) ==
              PastPass(schedule, days, today, excluded)
                + (if d < today && d in schedule then Unseen(schedule[d], excluded) else [])
  {
    assert (days + [d])[..|days|] == days;
  }

  lemma {:induction false} PastPassMembers(schedule: Schedule, days: seq<Day>, today: Day, excluded: set<Hash>, a: Article)
    requires a in PastPass(schedule, days, today, excluded)
    ensures a.hash !in excluded
    ensures exists d :: d in days && d in schedule && d < today && a in schedule[d]
  {
    var front := days[..|days| - 1];
    var d := days[|days| - 1];
    if a in PastPass(schedule, front, today, excluded) {
      PastPassMembers(schedule, front, today, excluded, a);
      var e :| e in front && e in schedule && e < today && a in schedule[e];
      assert e in days;
    } else {
      UnseenMembers(schedule[d], excluded);
    }
  }

  /** Every admitted article was in the queue or among the incoming ones. */
  lemma AdmittedFrom(queue: seq<Article>, incoming: seq<Article>, a: Article)
    requires a in Admitted(queue, incoming)
    ensures a in queue || a in incoming
  {
    AdmittedExtends(queue, incoming);
    var r := Admitted(queue, incoming);
    var i :| 0 <= i < |r| && r[i] == a;
    if i < |queue| {
      assert r[..|queue|][i] == a;
    }
  }

  /** Where a candidate comes from, and that it avoids the excluded
      fingerprints. */
  lemma CandidateOrigin(pushed: PushHistory, schedule: Schedule, backups: seq<seq<Article>>,
                        today: Day, needed: int, a: Article)
    requires a in Candidates(pushed, schedule, backups, today, needed)
    ensures a.hash !in Excluded(pushed, schedule, today)
    ensures (exists i :: 0 <= i < |backups| && a in backups[i])
         || (exists d :: d in schedule && d < today && a in schedule[d])
  {
    var ex := Excluded(pushed, schedule, today);
    var fromBackups := Admitted([], UnseenAll(backups, ex));
    var past := PastPass(schedule, SortedDays(schedule.Keys), today, ex);
    if a in fromBackups {
      AdmittedFrom([], UnseenAll(backups, ex), a);
      UnseenAllMembers(backups, ex, a);
    } else {
      AdmittedFrom(fromBackups, past, a);
      PastPassMembers(schedule, SortedDays(schedule.Keys), today, ex, a);
    }
  }

  /** The candidates never repeat a fingerprint. */
  lemma CandidatesDistinct(pushed: PushHistory, schedule: Schedule, backups: seq<seq<Article>>,
                           today: Day, needed: int)
    ensures DistinctHashes(Candidates(pushed, schedule, backups, today, needed))
  {
    var ex := Excluded(pushed, schedule, today);
    var fromBackups := Admitted([], UnseenAll(backups, ex));
    AdmittedDistinct([], UnseenAll(backups, ex));
    AdmittedDistinct(fromBackups, PastPass(schedule, SortedDays(schedule.Keys), today, ex));
  }

  /** Every article of a backup list whose fingerprint is not excluded
      survives the backup-file filter. */
  lemma {:induction false} UnseenAllCovers(lists: seq<seq<Article>>, excluded: set<Hash>, i: int, a: Article)
    requires 0 <= i < |lists| && a in lists[i] && a.hash !in excluded
    ensures a in UnseenAll(lists, excluded)
  {
    var n := |lists| - 1;
    UnseenMembers(lists[n], excluded);
    if i < n {
      assert lists[..n][i] == lists[i];
      UnseenAllCovers(lists[..n], excluded, i, a);
    }
  }

  /** Every article queued on a listed day before `today` whose fingerprint
      is not excluded survives the schedule-pass filter. */
  lemma {:induction false} PastPassCovers(schedule: Schedule, days: seq<Day>, today: Day, excluded: set<Hash>,
                                          d: Day, a: Article)
    requires d in days && d in schedule && d < today && a in schedule[d] && a.hash !in excluded
    ensures a in PastPass(schedule, days, today, excluded)
  {
    var n := |days| - 1;
    if days[n] == d {
      UnseenMembers(schedule[d], excluded);
    } else {
      assert days == days[..n] + [days[n]];
      PastPassCovers(schedule, days[..n], today, excluded, d, a);
    }
  }

  /** What the backup pass collects, each fingerprint once. */
  ghost function FromBackups(pushed: PushHistory, schedule: Schedule, backups: seq<seq<Article>>,
                             today: Day): seq<Article>
  {
    Admitted([], UnseenAll(backups, Excluded(pushed, schedule, today)))
  }

  /** The converse of `CandidateOrigin` for the backup files: an article of
      a backup list whose fingerprint was never pushed and is not queued
      today has its fingerprint among the candidates. */
  lemma CandidatesCoverBackups(pushed: PushHistory, schedule: Schedule, backups: seq<seq<Article>>,
                               today: Day, needed: int, i: int, a: Article)
    requires 0 <= i < |backups| && a in backups[i] && a.hash !in Excluded(pushed, schedule, today)
    ensures a.hash in Hashes(Candidates(pushed, schedule, backups, today, needed))
  {
    var ex := Excluded(pushed, schedule, today);
    var fb := Admitted([], UnseenAll(backups, ex));
    var c := Candidates(pushed, schedule, backups, today, needed);
    UnseenAllCovers(backups, ex, i, a);
    AdmittedCovers([], UnseenAll(backups, ex));
    var k :| 0 <= k < |fb| && Hashes(fb)[k] == a.hash;
    if |fb| < needed {
      AdmittedExtends(fb, PastPass(schedule, SortedDays(schedule.Keys), today, ex));
      assert c[..|fb|] == fb;
      assert c[k] == fb[k];
    }
    assert Hashes(c)[k] == a.hash;
  }

  /** The converse of `CandidateOrigin` for earlier queues: once the backup
      pass falls short, an article queued before today whose fingerprint was
      never pushed and is not queued today has its fingerprint among the
      candidates. */
  lemma CandidatesCoverSchedule(pushed: PushHistory, schedule: Schedule, backups: seq<seq<Article>>,
                                today: Day, needed: int, d: Day, a: Article)
    requires d in schedule && d < today && a in schedule[d] && a.hash !in Excluded(pushed, schedule, today)
    requires |FromBackups(pushed, schedule, backups, today)| < needed
    ensures a.hash in Hashes(Candidates(pushed, schedule, backups, today, needed))
  {
    var ex := Excluded(pushed, schedule, today);
    var fb := FromBackups(pushed, schedule, backups, today);
    var past := PastPass(schedule, SortedDays(schedule.Keys), today, ex);
    SortedDaysFacts(schedule.Keys);
    PastPassCovers(schedule, SortedDays(schedule.Keys), today, ex, d, a);
    AdmittedCovers(fb, past);
  }

  /** The fingerprints the backlog could offer: those of the backup-file
      articles and of the articles queued before today, less the excluded
      ones. */
  ghost function EligibleHashes(pushed: PushHistory, schedule: Schedule, backups: seq<seq<Article>>,
                                today: Day): set<Hash>
  {
    var ex := Excluded(pushed, schedule, today);
    (set i, a | 0 <= i < |backups| && a in backups[i] && a.hash !in ex :: a.hash)
      + (set d, a | d in schedule && d < today && a in schedule[d] && a.hash !in ex :: a.hash)
  }

  /** A sequence has no more distinct fingerprints than elements. */
  lemma {:induction false} HashSetBound(s: seq<Article>)
    ensures |set a | a in s :: a.hash| <= |s|
  {
    if s != [] {
      var front := s[..|s| - 1];
      HashSetBound(front);
      assert s == front + [s[|s| - 1]];
      assert (set a | a in s :: a.hash) == (set a | a in front :: a.hash) + {s[|s| - 1].hash};
    }
  }

  /** A subset is no larger than its superset. */
  lemma SubsetNoLarger(x: set<Hash>, y: set<Hash>)
    requires x <= y
    ensures |x| <= |y|
  {
    assert y == x + (y - x);
  }

  /** Once the backup pass falls short, every eligible fingerprint is the
      fingerprint of a candidate. */
  lemma EligibleAreCandidates(pushed: PushHistory, schedule: Schedule, backups: seq<seq<Article>>,
                              today: Day, needed: int, h: Hash)
    requires |FromBackups(pushed, schedule, backups, today)| < needed
    requires h in EligibleHashes(pushed, schedule, backups, today)
    ensures h in (set a | a in Candidates(pushed, schedule, backups, today, needed) :: a.hash)
  {
    var ex := Excluded(pushed, schedule, today);
    var c := Candidates(pushed, schedule, backups, today, needed);
    if exists i, a :: 0 <= i < |backups| && a in backups[i] && a.hash !in ex && a.hash == h {
      var i, a :| 0 <= i < |backups| && a in backups[i] && a.hash !in ex && a.hash == h;
      CandidatesCoverBackups(pushed, schedule, backups, today, needed, i, a);
    } else {
      var d, a :| d in schedule && d < today && a in schedule[d] && a.hash !in ex && a.hash == h;
      CandidatesCoverSchedule(pushed, schedule, backups, today, needed, d, a);
    }
    var k :| 0 <= k < |c| && Hashes(c)[k] == h;
    assert c[k] in c;
  }

  /** The backlog fills the gap whenever it can: with at least `needed`
      eligible fingerprints, the backfill offers exactly `needed` articles. */
  lemma BackfillFillsUp(pushed: PushHistory, schedule: Schedule, backups: seq<seq<Article>>,
                        today: Day, needed: int)
    requires needed > 0 && |EligibleHashes(pushed, schedule, backups, today)| >= needed
    ensures |Backfill(pushed, schedule, backups, today, needed)| == needed
  {
    var c := Candidates(pushed, schedule, backups, today, needed);
    BackfillFacts(pushed, schedule, backups, today, needed);
    if |FromBackups(pushed, schedule, backups, today)| < needed {
      var eligible := EligibleHashes(pushed, schedule, backups, today);
      var ch := set a | a in c :: a.hash;
      forall h | h in eligible ensures h in ch {
        EligibleAreCandidates(pushed, schedule, backups, today, needed, h);
      }
      SubsetNoLarger(eligible, ch);
      HashSetBound(c);
    } else {
      assert c == FromBackups(pushed, schedule, backups, today);
    }
  }

  /** The best `n` of `c` by score: as many as asked for or available,
      highest first, each one of `c`, and distinct when `c` is. */
  lemma BestByScore(c: seq<Article>, n: nat)
    ensures |Take(SortByScore(c), n)| == if n < |c| then n else |c|
    ensures SortedDesc(Take(SortByScore(c), n), ScoreKey)
    ensures forall a :: a in Take(SortByScore(c), n) ==> a in c
    ensures DistinctHashes(c) ==> DistinctHashes(Take(SortByScore(c), n))
  {
    var sorted := SortByScore(c);
    SortByScoreFacts(c, 0);
    var r := Take(sorted, n);
    assert |sorted| == |c| by {
      assert |multiset(sorted)| == |multiset(c)|;
    }
    TakeSorted(sorted, ScoreKey, |r|);
    forall a | a in r ensures a in c {
      assert a in multiset(sorted);
    }
  }

  /** What the backfill promises: nothing when nothing is needed; otherwise
      as many candidates as are needed or available, highest score first,
      each from a backup list or an earlier day's queue, none pushed on any
      recorded date or already queued today, and no fingerprint twice. */
  lemma BackfillFacts(pushed: PushHistory, schedule: Schedule, backups: seq<seq<Article>>,
                      today: Day, needed: int)
    ensures needed <= 0 ==> Backfill(pushed, schedule, backups, today, needed) == []
    ensures needed > 0 ==>
              |Backfill(pushed, schedule, backups, today, needed)| ==
              if needed < |Candidates(pushed, schedule, backups, today, needed)| then needed
              else |Candidates(pushed, schedule, backups, today, needed)|
    ensures SortedDesc(Backfill(pushed, schedule, backups, today, needed), ScoreKey)
    ensures DistinctHashes(Backfill(pushed, schedule, backups, today, needed))
    ensures forall a :: a in Backfill(pushed, schedule, backups, today, needed) ==>
              a.hash !in AllPushed(pushed) && a.hash !in TodayHashes(schedule, today)
    ensures forall a :: a in Backfill(pushed, schedule, backups, today, needed) ==>
              (exists i :: 0 <= i < |backups| && a in backups[i])
              || (exists d :: d in schedule && d < today && a in schedule[d])
  {
    if needed > 0 {
      var c := Candidates(pushed, schedule, backups, today, needed);
      CandidatesDistinct(pushed, schedule, backups, today, needed);
      BestByScore(c, needed);
      var r := Backfill(pushed, schedule, backups, today, needed);
      assert r == Take(SortByScore(c), needed);
      forall a | a in r
        ensures a.hash !in AllPushed(pushed) && a.hash !in TodayHashes(schedule, today)
        ensures (exists i :: 0 <= i < |backups| && a in backups[i])
                || (exists d :: d in schedule && d < today && a in schedule[d])
      {
        CandidateOrigin(pushed, schedule, backups, today, needed, a);
      }
    }
  }

  /** The backfill takes the best candidates: a candidate left out scores no
      higher than any article offered, and then `needed` were offered. */
  lemma BackfillPicksBest(pushed: PushHistory, schedule: Schedule, backups: seq<seq<Article>>,
                          today: Day, needed: int, x: Article)
    requires needed > 0
    requires x in Candidates(pushed, schedule, backups, today, needed)
    requires x !in Backfill(pushed, schedule, backups, today, needed)
    ensures |Backfill(pushed, schedule, backups, today, needed)| == needed
    ensures forall i :: 0 <= i < needed ==>
              Backfill(pushed, schedule, backups, today, needed)[i].priorityScore >= x.priorityScore
  {
    var c := Candidates(pushed, schedule, backups, today, needed);
    var sorted := SortByScore(c);
    SortByScoreFacts(c, 0);
    assert x in multiset(sorted);
    PrefixDominates(sorted, ScoreKey, needed, x);
  }

  /** Adding a date to the history adds its fingerprints. */
  lemma AllPushedAdd(m: PushHistory, d: Day, list: seq<Hash>)
    requires d !in m
    ensures AllPushed(m[d := list]) == AllPushed(m) + (set x | x in list)
  {
    var m' := m[d := list];
    forall h | h in AllPushed(m') ensures h in AllPushed(m) || h in list {
      var e :| e in m' && h in m'[e];
      if e != d {
        assert e in m && h in m[e];
      }
    }
    forall h | h in AllPushed(m) ensures h in AllPushed(m') {
      var e :| e in m && h in m[e];
      assert e in m' && h in m'[e];
    }
    forall h | h in list ensures h in AllPushed(m') {
      assert d in m' && h in m'[d];
    }
  }

  /** Fingerprints of the history, gathered date by date. */
  method CollectPushedHashes(pushed: PushHistory) returns (hs: set<Hash>)
    ensures hs == AllPushed(pushed)
  {
    hs := {};
    var todo := pushed.Keys;
    while todo != {}
      invariant todo <= pushed.Keys
      invariant hs == AllPushed(pushed - todo)
      decreases todo
    {
      assert |todo| != 0;
      var d :| d in todo;
      var list := pushed[d];
      ghost var before := hs;
      for j := 0 to |list|
        invariant hs == before + (set x | x in list[..j])
      {
        assert list[..j + 1] == list[..j] + [list[j]];
        hs := hs + {list[j]};
      }
      assert list[..|list|] == list;
      assert pushed - (todo - {d}) == (pushed - todo)[d := list];
      AllPushedAdd(pushed - todo, d, list);
      todo := todo - {d};
    }
    assert pushed - todo == pushed;
  }

  /** Fingerprints in today's queue (798-801). */
  method CollectScheduledHashes(schedule: Schedule, today: Day) returns (hs: set<Hash>)
    ensures hs == TodayHashes(schedule, today)
  {
    hs := {};
    if today in schedule {
      var q := schedule[today];
      for j := 0 to |q|
        invariant hs == set a | a in q[..j] :: a.hash
      {
        assert q[..j + 1] == q[..j] + [q[j]];
        hs := hs + {q[j].hash};
      }
      assert q[..|q|] == q;
    }
  }

  /** One inner loop of either pass: append each article of `list` whose
      fingerprint is neither excluded nor already collected. */
  method AppendUnseen(all: seq<Article>, list: seq<Article>, excluded: set<Hash>) returns (r: seq<Article>)
    ensures r == Admitted(all, Unseen(list, excluded))
  {
    r := all;
    assert list[..0] == [];
    for j := 0 to |list|
      invariant r == Admitted(all, Unseen(list[..j], excluded))
    {
      var a := list[j];
      ghost var u := Unseen(list[..j], excluded);
      assert list[..j + 1] == list[..j] + [a];
      UnseenSnoc(list[..j], a, excluded);
      if a.hash in excluded {
        assert Unseen(list[..j + 1], excluded) == u + [] == u;
      } else {
        assert Unseen(list[..j + 1], excluded) == u + [a];
        AdmittedSnoc(all, u, a);
        if a.hash !in Hashes(r) {
          r := r + [a];
        }
      }
    }
    assert list[..|list|] == list;
  }

  /** The backup-file pass (809-816): every backup list in turn. */
  method BackupPass(backups: seq<seq<Article>>, ex: set<Hash>) returns (all: seq<Article>)
    ensures all == Admitted([], UnseenAll(backups, ex))
  {
    all := [];
    for i := 0 to |backups|
      invariant all == Admitted([], UnseenAll(backups[..i], ex))
    {
      assert backups[..i + 1][..i] == backups[..i];
      assert UnseenAll(backups[..i + 1], ex) == UnseenAll(backups[..i], ex) + Unseen(backups[i], ex);
      AdmittedConcat([], UnseenAll(backups[..i], ex), Unseen(backups[i], ex));
      all := AppendUnseen(all, backups[i], ex);
    }
    assert backups[..|backups|] == backups;
  }

  /** `sorted(push_schedule.keys())`: repeatedly take the earliest day left. */
  method SortedKeys(ks: set<Day>) returns (r: seq<Day>)
    ensures r == SortedDays(ks)
  {
    r := [];
    var remaining := ks;
    ghost var done: set<Day> := {};
    while remaining != {}
      invariant done + remaining == ks
      invariant forall x, y :: x in done && y in remaining ==> x < y
      invariant r == SortedDays(done)
      decreases remaining
    {
      ghost var least := MinDay(remaining);
      var d :| d in remaining && forall k :: k in remaining ==> d <= k;
      SortedDaysSnoc(done, d);
      r := r + [d];
      done := done + {d};
      remaining := remaining - {d};
    }
  }

  /** The schedule pass (819-824): the queues of the days before `today`,
      earliest day first. */
  method SchedulePass(schedule: Schedule, today: Day, ex: set<Hash>, fromBackups: seq<Article>)
    returns (all: seq<Article>)
    ensures all == Admitted(fromBackups, PastPass(schedule, SortedDays(schedule.Keys), today, ex))
  {
    var days := SortedKeys(schedule.Keys);
    all := fromBackups;
    for i := 0 to |days|
      invariant all == Admitted(fromBackups, PastPass(schedule, days[..i], today, ex))
    {
      var d := days[i];
      ghost var before := PastPass(schedule, days[..i], today, ex);
      assert days[..i + 1] == days[..i] + [d];
      PastPassSnoc(schedule, days[..i], d, today, ex);
      if d < today && d in schedule {
        AdmittedConcat(fromBackups, before, Unseen(schedule[d], ex));
        all := AppendUnseen(all, schedule[d], ex);
        assert all == Admitted(fromBackups, before + Unseen(schedule[d], ex));
      } else {
        assert before + [] == before;
      }
    }
    assert days[..|days|] == days;
  }

  /** `find_historical_articles(pushed, schedule, today, needed)` with the
      backup lists already read. */
  method FindHistoricalArticles(pushed: PushHistory, schedule: Schedule, backups: seq<seq<Article>>,
                                today: Day, needed: int)
    returns (r: seq<Article>)
    ensures r == Backfill(pushed, schedule, backups, today, needed)
  {
    if needed <= 0 {
      return [];
    }
    var pushedHashes := CollectPushedHashes(pushed);
    var scheduledHashes := CollectScheduledHashes(schedule, today);
    var ex := pushedHashes + scheduledHashes;
    var all := BackupPass(backups, ex);
    if |all| < needed {
      all := SchedulePass(schedule, today, ex, all);
    }
    all := SortByScore(all);
    r := Take(all, needed);
  }

  /** Two queues listing the same article: yesterday's leftover, found
      again in yesterday's backup file. */
  function Leftover(): Article
  {
    MakeArticle(Entry("Ocean oxidation", "l", "", "", None), FeedInfo("u", "J", "csv", ""), t => t)
  }

  /** Nothing pushed yet and one queue, of yesterday, holding `Leftover()`. */
  function LeftoverSchedule(): Schedule
  {
    map[1 := [Leftover()]]
  }

  /** Both passes of the example find the leftover article once each. */
  lemma LeftoverPasses()
    ensures Excluded(map[], LeftoverSchedule(), 2) == {}
    ensures UnseenAll([[Leftover()]], {}) == [Leftover()]
    ensures PastPass(LeftoverSchedule(), SortedDays(LeftoverSchedule().Keys), 2, {}) == [Leftover()]
  {
    var a := Leftover();
    var schedule := LeftoverSchedule();
    assert AllPushed(map[]) == {};
    assert Unseen([a], {}) == [a] by {
      assert [a][..0] == [];
    }
    assert [[a]][..0] == [];
    SortedDaysSnoc({}, 1);
    assert schedule.Keys == {} + {1};
    PastPassSnoc(schedule, [], 1, 2, {});
  }

  /** As written, the backfill can offer the same article twice: once from
      the backup file and once from the schedule. */
  lemma BackfillAsWrittenRepeats()
    ensures BackfillAsWritten(map[], LeftoverSchedule(), [[Leftover()]], 2, 6) == [Leftover(), Leftover()]
    ensures !DistinctHashes(BackfillAsWritten(map[], LeftoverSchedule(), [[Leftover()]], 2, 6))
  {
    var a := Leftover();
    LeftoverCandidatesAsWritten();
    SortEqualPair(a);
    assert Take([a, a], 6) == [a, a];
    assert BackfillAsWritten(map[], LeftoverSchedule(), [[a]], 2, 6) == Take(SortByScore([a, a]), 6);
    assert !DistinctHashes([a, a]) by {
      assert [a, a][0].hash == [a, a][1].hash;
    }
  }

  /** As written, both passes contribute the leftover article. */
  lemma LeftoverCandidatesAsWritten()
    ensures CandidatesAsWritten(map[], LeftoverSchedule(), [[Leftover()]], 2, 6) == [Leftover(), Leftover()]
  {
    LeftoverPasses();
  }

  /** Two equal scores stay as they are. */
  lemma SortEqualPair(a: Article)
    ensures SortByScore([a, a]) == [a, a]
  {
    assert [a, a][..1] == [a];
    assert [a][..0] == [];
    assert SortDesc([a], ScoreKey) == [a];
  }

  /** The corrected backfill offers that article once. */
  lemma BackfillOffersOnce()
    ensures Backfill(map[], LeftoverSchedule(), [[Leftover()]], 2, 6) == [Leftover()]
  {
    var a := Leftover();
    LeftoverPasses();
    assert Admitted([], [a]) == [a] by {
      assert [a][..0] == [];
    }
    assert Admitted([a], [a]) == [a] by {
      assert [a][..0] == [];
      assert Hashes([a])[0] == a.hash;
    }
    assert Candidates(map[], LeftoverSchedule(), [[a]], 2, 6) == [a];
    assert SortByScore([a]) == [a] by {
      assert [a][..0] == [];
    }
  }
}
