/** The daily run of `main` after the feeds are known: purge the history,
    poll every feed, admit what was found into today's queue, cut the two
    batches, and record what was pushed. The three dictionaries the run
    keeps between days are the fields of `PushState`. */
module Pusher {
  import opened History
  import opened RssStatus
  import opened Articles
  import opened Queue
  import opened Backlog
  import opened Batching
  import opened Sorting

  /** The articles the feed loop collects: for each polled feed in turn,
      the kept articles of a successful fetch. `outcomes[i]` is what
      fetching `feeds[i]` produced. */
  function Found(feeds: seq<FeedInfo>, outcomes: seq<FetchOutcome>, today: Day, pushed: PushHistory,
                 translate: string -> string): seq<Article>
    requires |outcomes| == |feeds|
  {
    if feeds == [] then []
    else
      var n := |feeds| - 1;
      Found(feeds[..n], outcomes[..n], today, pushed, translate)
        + (if StatusAfter(feeds[n], outcomes[n], today).kind == Success
           then KeptArticles(outcomes[n].entries, feeds[n], pushed, today, translate) else [])
  }

  /** The status table after the feed loop: each feed's URL is overwritten
      with the status of its fetch, later feeds winning. */
  function Statuses(st: StatusTable, feeds: seq<FeedInfo>, outcomes: seq<FetchOutcome>, today: Day): StatusTable
    requires |outcomes| == |feeds|
  {
    if feeds == [] then st
    else
      var n := |feeds| - 1;
      Statuses(st, feeds[..n], outcomes[..n], today)[feeds[n].url := StatusAfter(feeds[n], outcomes[n], today)]
  }

  /** Today's queue, or the empty queue `main` creates (948-949). */
  function QueueOf(schedule: Schedule, today: Day): seq<Article>
  {
    if today in schedule then schedule[today] else []
  }

  /** The schedule after admission and sorting (982-986). */
  function Queued(schedule: Schedule, today: Day, found: seq<Article>): Schedule
  {
    schedule[today := SortByScore(Admitted(QueueOf(schedule, today), found))]
  }

  /** The history after a run that pushed `first` and then `second`; an
      empty first batch pushes nothing. */
  function Recorded(h: PushHistory, today: Day, first: seq<Article>, second: seq<Article>): PushHistory
  {
    if first == [] then h
    else h[today := PushedOn(h, today) + Hashes(first) + Hashes(second)]
  }

  /** The state the daily run updates: `pushed_articles`, `push_schedule`
      and `rss_status`. */
  class PushState {
    var pushed: PushHistory
    var schedule: Schedule
    var status: StatusTable

    /** The loaded state. */
    constructor (pushed0: PushHistory, schedule0: Schedule, status0: StatusTable)
      ensures pushed == pushed0 && schedule == schedule0 && status == status0
    {
      pushed := pushed0;
      schedule := schedule0;
      status := status0;
    }

    /** `clean_old_records(pushed_articles, days)` run on day `now`: the
        dates that sort before `now - days` are deleted one by one. */
    method CleanOldRecords(now: Day, days: int)
      modifies this
      ensures pushed == Purged(old(pushed), now - days)
      ensures schedule == old(schedule) && status == old(status)
    {
      var cutoff := now - days;
      var keysToRemove := set k | k in pushed && k < cutoff;
      while keysToRemove != {}
        invariant forall d :: d in pushed <==> d in old(pushed) && (d >= cutoff || d in keysToRemove)
        invariant forall d :: d in pushed ==> pushed[d] == old(pushed)[d]
        invariant forall d :: d in keysToRemove ==> d < cutoff
        invariant schedule == old(schedule) && status == old(status)
        decreases keysToRemove
      {
        var key :| key in keysToRemove;
        pushed := pushed - {key};
        keysToRemove := keysToRemove - {key};
      }
      assert pushed == Purged(old(pushed), cutoff);
    }

    /** The feed loop of `main` (961-965): `filter_articles` on each feed,
        its status written under the feed's URL, its articles collected. */
    method ProcessFeeds(feeds: seq<FeedInfo>, outcomes: seq<FetchOutcome>, today: Day,
                        translate: string -> string)
      returns (found: seq<Article>)
      requires |outcomes| == |feeds|
      modifies this
      ensures found == Found(feeds, outcomes, today, old(pushed), translate)
      ensures status == Statuses(old(status), feeds, outcomes, today)
      ensures pushed == old(pushed) && schedule == old(schedule)
    {
      found := [];
      for i := 0 to |feeds|
        invariant found == Found(feeds[..i], outcomes[..i], today, pushed, translate)
        invariant status == Statuses(old(status), feeds[..i], outcomes[..i], today)
        invariant pushed == old(pushed) && schedule == old(schedule)
      {
        assert feeds[..i + 1][..i] == feeds[..i];
        assert outcomes[..i + 1][..i] == outcomes[..i];
        var articles, st := FilterArticles(feeds[i], outcomes[i], today, pushed, translate);
        status := status[feeds[i].url := st];
        found := found + articles;
      }
      assert feeds[..|feeds|] == feeds;
      assert outcomes[..|outcomes|] == outcomes;
    }

    /** Admission into today's queue and the sort by score (982-986). */
    method Admit(today: Day, incoming: seq<Article>)
      requires today in schedule
      modifies this
      ensures schedule == Queued(old(schedule), today, incoming)
      ensures pushed == old(pushed) && status == old(status)
    {
      ghost var q0 := schedule[today];
      for i := 0 to |incoming|
        invariant schedule == old(schedule)[today := Admitted(q0, incoming[..i])]
        invariant pushed == old(pushed) && status == old(status)
      {
        var article := incoming[i];
        assert incoming[..i + 1] == incoming[..i] + [article];
        AdmittedSnoc(q0, incoming[..i], article);
        if article.hash !in Hashes(schedule[today]) {
          schedule := schedule[today := schedule[today] + [article]];
        }
      }
      assert incoming[..|incoming|] == incoming;
      schedule := schedule[today := SortByScore(schedule[today])];
    }

    /** The batching block (997-1012): the first six, topped up from the
        backlog when short, the next six, and the rest left queued. */
    method TakeBatches(today: Day, backups: seq<seq<Article>>) returns (first: seq<Article>, second: seq<Article>)
      requires today in schedule
      modifies this
      ensures today in schedule
      ensures Plan(first, second, schedule[today]) == BatchPlan(old(pushed), old(schedule), backups, today)
      ensures schedule == old(schedule)[today := schedule[today]]
      ensures pushed == old(pushed) && status == old(status)
    {
      ghost var plan := BatchPlan(pushed, schedule, backups, today);
      var q := schedule[today];
      first := Take(q, MAX_PUSH_PER_BATCH);
      var remaining := q[|first|..];
      assert remaining == q[|Take(q, MAX_PUSH_PER_BATCH)|..];
      if |first| < MAX_PUSH_PER_BATCH {
        var neededCount := MAX_PUSH_PER_BATCH - |first|;
        var historical := FindHistoricalArticles(pushed, schedule, backups, today, neededCount);
        if historical != [] {
          first := first + historical;
        } else {
          assert first + historical == first;
        }
      }
      assert first == plan.first;
      second := [];
      if |remaining| > 0 {
        second := Take(remaining, MAX_PUSH_PER_BATCH);
        assert second == plan.second && remaining[|second|..] == plan.rest;
        schedule := schedule[today := remaining[|second|..]];
      } else {
        assert plan.second == [] && plan.rest == [];
        schedule := schedule[today := []];
      }
    }

    /** Append the fingerprints of a pushed batch to today's history entry,
        creating it if needed (1035-1038, 1058-1059). */
    method RecordBatch(today: Day, batch: seq<Article>)
      modifies this
      ensures pushed == old(pushed)[today := PushedOn(old(pushed), today) + Hashes(batch)]
      ensures schedule == old(schedule) && status == old(status)
    {
      if today !in pushed {
        pushed := pushed[today := []];
      }
      assert pushed[today] + Hashes(batch[..0]) == PushedOn(old(pushed), today);
      for i := 0 to |batch|
        invariant pushed == old(pushed)[today := PushedOn(old(pushed), today) + Hashes(batch[..i])]
        invariant schedule == old(schedule) && status == old(status)
      {
        assert Hashes(batch[..i + 1]) == Hashes(batch[..i]) + [batch[i].hash];
        assert pushed[today] + [batch[i].hash] == PushedOn(old(pushed), today) + Hashes(batch[..i + 1]);
        pushed := pushed[today := pushed[today] + [batch[i].hash]];
      }
      assert batch[..|batch|] == batch;
    }

    /** The start of the day (946-949): purge the history with the
        sixty-day cutoff and make sure today has a queue. */
    method StartDay(today: Day)
      modifies this
      ensures pushed == Purged(old(pushed), today - HISTORY_DAYS)
      ensures schedule == old(schedule)[today := QueueOf(old(schedule), today)]
      ensures status == old(status)
    {
      CleanOldRecords(today, HISTORY_DAYS);
      if today !in schedule {
        schedule := schedule[today := []];
      } else {
        assert schedule == schedule[today := schedule[today]];
      }
    }

    /** Cut the batches and record what is pushed: the first batch when it
        is not empty, then the second when there is one (997-1059). */
    method PushBatches(today: Day, backups: seq<seq<Article>>) returns (first: seq<Article>, second: seq<Article>)
      requires today in schedule
      modifies this
      ensures today in schedule
      ensures Plan(first, second, schedule[today]) == BatchPlan(old(pushed), old(schedule), backups, today)
      ensures schedule == old(schedule)[today := schedule[today]]
      ensures pushed == Recorded(old(pushed), today, first, second)
      ensures status == old(status)
    {
      first, second := TakeBatches(today, backups);
      ghost var before := pushed;
      if first != [] {
        RecordBatch(today, first);
        ghost var afterFirst := PushedOn(before, today) + Hashes(first);
        ghost var once: PushHistory := before[today := afterFirst];
        assert pushed == once;
        if second != [] {
          RecordBatch(today, second);
          assert pushed == once[today := afterFirst + Hashes(second)];
        } else {
          assert afterFirst + Hashes(second) == afterFirst;
        }
      }
    }

    /** One day of `main` (943-1059) over feeds already fetched: purge,
        poll, admit, cut the batches, record them. */
    method Run(today: Day, feeds: seq<FeedInfo>, outcomes: seq<FetchOutcome>,
               backups: seq<seq<Article>>, translate: string -> string)
      returns (first: seq<Article>, second: seq<Article>, found: seq<Article>)
      requires |outcomes| == |feeds|
      modifies this
      ensures found == Found(feeds, outcomes, today, Purged(old(pushed), today - HISTORY_DAYS), translate)
      ensures status == Statuses(old(status), feeds, outcomes, today)
      ensures today in schedule
      ensures Plan(first, second, schedule[today]) ==
                BatchPlan(Purged(old(pushed), today - HISTORY_DAYS), Queued(old(schedule), today, found), backups, today)
      ensures schedule == Queued(old(schedule), today, found)[today := schedule[today]]
      ensures pushed == Recorded(Purged(old(pushed), today - HISTORY_DAYS), today, first, second)
    {
      StartDay(today);
      found := ProcessFeeds(feeds, outcomes, today, translate);
      Admit(today, found);
      QueuedAfterStart(old(schedule), today, found);
      first, second := PushBatches(today, backups);
    }
  }

  /** Creating an empty queue for today first changes nothing. */
  lemma QueuedAfterStart(schedule: Schedule, today: Day, found: seq<Article>)
    ensures Queued(schedule[today := QueueOf(schedule, today)], today, found) == Queued(schedule, today, found)
  {
  }

  /** Hashes distribute over concatenation. */
  lemma HashesConcat(x: seq<Article>, y: seq<Article>)
    ensures Hashes(x + y) == Hashes(x) + Hashes(y)
  {
  }

  /** After a push, every pushed fingerprint counts as a duplicate on that
      day and the six days after it, so it is neither admitted nor pushed
      again that week. */
  lemma RecordedMarksDuplicates(h: PushHistory, today: Day, first: seq<Article>, second: seq<Article>,
                                a: Article, k: nat)
    requires first != [] && a in first + second && k < DUPLICATE_CHECK_DAYS
    ensures Duplicate(a.hash, Recorded(h, today, first, second), today + k)
  {
    var r := Recorded(h, today, first, second);
    var i :| 0 <= i < |first + second| && (first + second)[i] == a;
    HashesConcat(first, second);
    assert Hashes(first + second)[i] == a.hash;
    assert a.hash in r[today];
    DuplicateWindow(a.hash, r, today + k);
  }

  /** Recording touches today's entry only, and extends it: what was
      recorded before stays in front. */
  lemma RecordedExtends(h: PushHistory, today: Day, first: seq<Article>, second: seq<Article>, d: Day)
    ensures d != today ==> (d in Recorded(h, today, first, second) <==> d in h)
    ensures d != today && d in h ==> Recorded(h, today, first, second)[d] == h[d]
    ensures var r := PushedOn(Recorded(h, today, first, second), today);
            |PushedOn(h, today)| <= |r| && r[..|PushedOn(h, today)|] == PushedOn(h, today)
  {
  }

  /** Each found article is the record of a kept entry of a successful
      fetch of one of the feeds, so it passed the keyword gate and was no
      duplicate in the given history. */
  lemma {:induction false} FoundFacts(feeds: seq<FeedInfo>, outcomes: seq<FetchOutcome>, today: Day,
                                      pushed: PushHistory, translate: string -> string, a: Article)
    requires |outcomes| == |feeds|
    requires a in Found(feeds, outcomes, today, pushed, translate)
    ensures a.coreMatches >= 1 && !Duplicate(a.hash, pushed, today)
    ensures exists i, e :: 0 <= i < |feeds| && outcomes[i].Fetched? && e in outcomes[i].entries
              && Kept(e, pushed, today) && a == MakeArticle(e, feeds[i], translate)
  {
    var n := |feeds| - 1;
    if a in Found(feeds[..n], outcomes[..n], today, pushed, translate) {
      FoundFacts(feeds[..n], outcomes[..n], today, pushed, translate, a);
      var i, e :| 0 <= i < n && outcomes[..n][i].Fetched? && e in outcomes[..n][i].entries
                  && Kept(e, pushed, today) && a == MakeArticle(e, feeds[..n][i], translate);
      assert outcomes[i] == outcomes[..n][i] && feeds[i] == feeds[..n][i];
    } else {
      KeptArticleFacts(outcomes[n].entries, feeds[n], pushed, today, translate, a);
      KeptArticlesExact(outcomes[n].entries, feeds[n], pushed, today, translate, a);
    }
  }

  /** A URL that no polled feed has keeps its old record, or its absence. */
  lemma {:induction false} StatusesUntouched(st: StatusTable, feeds: seq<FeedInfo>, outcomes: seq<FetchOutcome>,
                                             today: Day, url: string)
    requires |outcomes| == |feeds|
    requires forall i :: 0 <= i < |feeds| ==> feeds[i].url != url
    ensures url in Statuses(st, feeds, outcomes, today) <==> url in st
    ensures url in st ==> Statuses(st, feeds, outcomes, today)[url] == st[url]
  {
    if feeds != [] {
      var n := |feeds| - 1;
      assert forall i :: 0 <= i < n ==> feeds[..n][i] == feeds[i];
      StatusesUntouched(st, feeds[..n], outcomes[..n], today, url);
    }
  }

  /** A polled URL holds the status of the last fetch of that URL. */
  lemma {:induction false} StatusesLast(st: StatusTable, feeds: seq<FeedInfo>, outcomes: seq<FetchOutcome>,
                                        today: Day, i: int)
    requires |outcomes| == |feeds| && 0 <= i < |feeds|
    requires forall j :: i < j < |feeds| ==> feeds[j].url != feeds[i].url
    ensures feeds[i].url in Statuses(st, feeds, outcomes, today)
    ensures Statuses(st, feeds, outcomes, today)[feeds[i].url] == StatusAfter(feeds[i], outcomes[i], today)
  {
    var n := |feeds| - 1;
    if i < n {
      assert feeds[..n][i] == feeds[i] && outcomes[..n][i] == outcomes[i];
      assert forall j :: i < j < n ==> feeds[..n][j] == feeds[j];
      StatusesLast(st, feeds[..n], outcomes[..n], today, i);
    }
  }

  /** The queue never admits a fingerprint twice: a queue without repeats
      keeps none after admission and the sort, the sort only reorders what
      was admitted, and other dates are untouched. */
  lemma QueuedFacts(schedule: Schedule, today: Day, found: seq<Article>)
    ensures today in Queued(schedule, today, found)
    ensures DistinctHashes(QueueOf(schedule, today)) ==> DistinctHashes(Queued(schedule, today, found)[today])
    ensures multiset(Queued(schedule, today, found)[today]) == multiset(Admitted(QueueOf(schedule, today), found))
    ensures forall d :: d != today ==> (d in Queued(schedule, today, found) <==> d in schedule)
    ensures forall d :: d != today && d in schedule ==> Queued(schedule, today, found)[d] == schedule[d]
  {
    var q := QueueOf(schedule, today);
    SortByScoreFacts(Admitted(q, found), 0);
    if DistinctHashes(q) {
      AdmittedDistinct(q, found);
    }
  }

  /** Every article found has its fingerprint in today's queue afterwards:
      it was admitted, or an article with its fingerprint was queued. */
  lemma QueuedCovers(schedule: Schedule, today: Day, found: seq<Article>, a: Article)
    requires a in found
    ensures a.hash in Hashes(Queued(schedule, today, found)[today])
  {
    var adm := Admitted(QueueOf(schedule, today), found);
    var sorted := SortByScore(adm);
    SortByScoreFacts(adm, 0);
    AdmittedCovers(QueueOf(schedule, today), found);
    var k :| 0 <= k < |adm| && Hashes(adm)[k] == a.hash;
    assert adm[k] in multiset(sorted);
    var j :| 0 <= j < |sorted| && sorted[j] == adm[k];
    assert Hashes(sorted)[j] == a.hash;
  }
}
