/** The two-batch slicing of today's sorted queue: the first six articles,
    topped up from the backlog when fewer than six are queued, the next six,
    and the rest, which stays queued for the next run. */
module Batching {
  import opened History
  import opened Articles
  import opened Queue
  import opened Backlog
  import opened Sorting

  /** The two batches and what is left in today's queue. */
  datatype Plan = Plan(first: seq<Article>, second: seq<Article>, rest: seq<Article>)

  /** The number of queued articles that go into the first batch. */
  function HeadLength(q: seq<Article>): nat
  {
    if |q| < MAX_PUSH_PER_BATCH then |q| else MAX_PUSH_PER_BATCH
  }

  /** The batches cut from `schedule[today]`. The backfill sees the schedule
      before it is cut, so every article queued today is excluded from it. */
  ghost function BatchPlan(pushed: PushHistory, schedule: Schedule, backups: seq<seq<Article>>,
                           today: Day): Plan
    requires today in schedule
  {
    var q := schedule[today];
    var head := Take(q, MAX_PUSH_PER_BATCH);
    var remaining := q[|head|..];
    var first := if |head| < MAX_PUSH_PER_BATCH
                 then head + Backfill(pushed, schedule, backups, today, MAX_PUSH_PER_BATCH - |head|)
                 else head;
    if |remaining| > 0 then
      var second := Take(remaining, MAX_PUSH_PER_BATCH);
      Plan(first, second, remaining[|second|..])
    else Plan(first, [], [])
  }

  /** No batch holds more than six articles. */
  lemma BatchSizes(pushed: PushHistory, schedule: Schedule, backups: seq<seq<Article>>, today: Day)
    requires today in schedule
    ensures |BatchPlan(pushed, schedule, backups, today).first| <= MAX_PUSH_PER_BATCH
    ensures |BatchPlan(pushed, schedule, backups, today).second| <= MAX_PUSH_PER_BATCH
  {
    var q := schedule[today];
    if |q| < MAX_PUSH_PER_BATCH {
      BackfillFacts(pushed, schedule, backups, today, MAX_PUSH_PER_BATCH - |q|);
    }
  }

  /** The queued part of the first batch, the second batch and the rest are
      today's queue cut in three, in order. */
  lemma BatchPartition(pushed: PushHistory, schedule: Schedule, backups: seq<seq<Article>>, today: Day)
    requires today in schedule
    ensures var p := BatchPlan(pushed, schedule, backups, today);
            var k := HeadLength(schedule[today]);
            k <= |p.first| && p.first[..k] + p.second + p.rest == schedule[today]
  {
    var q := schedule[today];
    var p := BatchPlan(pushed, schedule, backups, today);
    var k := HeadLength(q);
    assert p.first[..k] == q[..k];
    if |q| > k {
      var remaining := q[k..];
      assert p.second + p.rest == remaining;
      assert q == q[..k] + remaining;
    } else {
      assert q[..k] == q;
    }
  }

  /** The backlog is consulted only when fewer than six articles are queued;
      then the queue is used up by the first batch, and the rest of that
      batch is the backfill. A full queue fills the first batch by itself. */
  lemma BackfillOnlyWhenShort(pushed: PushHistory, schedule: Schedule, backups: seq<seq<Article>>, today: Day)
    requires today in schedule
    ensures var q := schedule[today];
            var p := BatchPlan(pushed, schedule, backups, today);
            |q| < MAX_PUSH_PER_BATCH ==>
              p.first == q + Backfill(pushed, schedule, backups, today, MAX_PUSH_PER_BATCH - |q|)
              && p.second == [] && p.rest == []
    ensures var q := schedule[today];
            var p := BatchPlan(pushed, schedule, backups, today);
            |q| >= MAX_PUSH_PER_BATCH ==> p.first == q[..MAX_PUSH_PER_BATCH]
  {
    var q := schedule[today];
    if |q| < MAX_PUSH_PER_BATCH {
      assert Take(q, MAX_PUSH_PER_BATCH) == q;
    }
  }

  /** The first batch is full when six articles are queued, or when the
      backlog holds enough eligible fingerprints to close the gap: two
      queued and four eligible make six. */
  lemma FirstBatchFull(pushed: PushHistory, schedule: Schedule, backups: seq<seq<Article>>, today: Day)
    requires today in schedule
    requires |schedule[today]| >= MAX_PUSH_PER_BATCH
             || |EligibleHashes(pushed, schedule, backups, today)| >= MAX_PUSH_PER_BATCH - |schedule[today]|
    ensures |BatchPlan(pushed, schedule, backups, today).first| == MAX_PUSH_PER_BATCH
  {
    var q := schedule[today];
    BackfillOnlyWhenShort(pushed, schedule, backups, today);
    if |q| < MAX_PUSH_PER_BATCH {
      BackfillFillsUp(pushed, schedule, backups, today, MAX_PUSH_PER_BATCH - |q|);
    }
  }

  /** Two sequences without repeated fingerprints, sharing none, make one. */
  lemma DistinctConcat(x: seq<Article>, y: seq<Article>)
    requires DistinctHashes(x) && DistinctHashes(y)
    requires forall i, j :: 0 <= i < |x| && 0 <= j < |y| ==> x[i].hash != y[j].hash
    ensures DistinctHashes(x + y)
  {
    forall i, j | 0 <= i < j < |x + y| ensures (x + y)[i].hash != (x + y)[j].hash {
      if j >= |x| && i < |x| {
        assert (x + y)[j] == y[j - |x|];
      } else if i >= |x| {
        assert (x + y)[i] == y[i - |x|] && (x + y)[j] == y[j - |x|];
      }
    }
  }

  /** The backfilled articles share no fingerprint with today's queue. */
  lemma BackfillAvoidsQueue(pushed: PushHistory, schedule: Schedule, backups: seq<seq<Article>>,
                            today: Day, needed: int)
    requires today in schedule
    ensures forall i, j :: 0 <= i < |schedule[today]| && 0 <= j < |Backfill(pushed, schedule, backups, today, needed)| ==>
              schedule[today][i].hash != Backfill(pushed, schedule, backups, today, needed)[j].hash
  {
    var b := Backfill(pushed, schedule, backups, today, needed);
    BackfillFacts(pushed, schedule, backups, today, needed);
    forall i, j | 0 <= i < |schedule[today]| && 0 <= j < |b|
      ensures schedule[today][i].hash != b[j].hash
    {
      assert b[j] in b;
      assert schedule[today][i].hash in TodayHashes(schedule, today);
    }
  }

  /** When today's queue repeats no fingerprint, neither do the two batches
      together, and nothing pushed stays queued. */
  lemma BatchesDistinct(pushed: PushHistory, schedule: Schedule, backups: seq<seq<Article>>, today: Day)
    requires today in schedule && DistinctHashes(schedule[today])
    ensures var p := BatchPlan(pushed, schedule, backups, today);
            DistinctHashes(p.first + p.second + p.rest)
  {
    var q := schedule[today];
    var p := BatchPlan(pushed, schedule, backups, today);
    if |q| < MAX_PUSH_PER_BATCH {
      var b := Backfill(pushed, schedule, backups, today, MAX_PUSH_PER_BATCH - |q|);
      BackfillOnlyWhenShort(pushed, schedule, backups, today);
      BackfillFacts(pushed, schedule, backups, today, MAX_PUSH_PER_BATCH - |q|);
      BackfillAvoidsQueue(pushed, schedule, backups, today, MAX_PUSH_PER_BATCH - |q|);
      DistinctConcat(q, b);
      assert p.first + p.second + p.rest == q + b;
    } else {
      BatchPartition(pushed, schedule, backups, today);
      assert p.first + p.second + p.rest == q;
    }
  }

  /** What the backlog adds to the first batch was never pushed on any date
      of the history, so in particular it is no duplicate today. */
  lemma BackfilledNeverPushed(pushed: PushHistory, schedule: Schedule, backups: seq<seq<Article>>,
                              today: Day, a: Article)
    requires today in schedule
    requires a in BatchPlan(pushed, schedule, backups, today).first[HeadLength(schedule[today])..]
    ensures a.hash !in AllPushed(pushed)
    ensures !Duplicate(a.hash, pushed, today)
  {
    var q := schedule[today];
    BackfillOnlyWhenShort(pushed, schedule, backups, today);
    BatchPartition(pushed, schedule, backups, today);
    var b := Backfill(pushed, schedule, backups, today, MAX_PUSH_PER_BATCH - |q|);
    BackfillFacts(pushed, schedule, backups, today, MAX_PUSH_PER_BATCH - |q|);
    assert |q| < MAX_PUSH_PER_BATCH;
    assert BatchPlan(pushed, schedule, backups, today).first[|q|..] == b;
    DuplicateWindow(a.hash, pushed, today);
  }
}
