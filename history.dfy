/** The push history (`pushed_articles`): retention purge
    (`clean_old_records`) and the seven-day duplicate check
    (`is_article_duplicate`). */
module History {
  import opened Fingerprint

  /** A calendar date as its day ordinal (`date.toordinal()`, 1 for
      0001-01-01). Zero-padded `YYYY-MM-DD` keys sort as the days they name,
      so string comparison of keys is comparison of day numbers. */
  type Day = nat

  /** Days of history kept by the purge. */
  const HISTORY_DAYS: int := 60
  /** Days, today included, searched for an earlier push. */
  const DUPLICATE_CHECK_DAYS: int := 7

  /** Date to the fingerprints pushed that day, in push order. */
  type PushHistory = map<Day, seq<Hash>>

  /** The list recorded for `d`, or the empty list. */
  function PushedOn(h: PushHistory, d: Day): seq<Hash>
  {
    if d in h then h[d] else []
  }

  /** The history `clean_old_records` leaves: the dates before `cutoff` are
      gone, every other date keeps its list. */
  function Purged(h: PushHistory, cutoff: int): (r: PushHistory)
    ensures forall d :: d in r <==> d in h && d >= cutoff
    ensures forall d :: d in r ==> r[d] == h[d]
  {
    map d | d in h && d >= cutoff :: h[d]
  }

  /** `hash` is listed under one of the `n` days ending with `today`. */
  function SeenWithin(hash: Hash, h: PushHistory, today: Day, n: nat): bool
  {
    if n == 0 then false
    else
      var d := today - (n - 1);
      (d in h && hash in h[d]) || SeenWithin(hash, h, today, n - 1)
  }

  /** `is_article_duplicate(hash, h, today)`: pushed today or on one of the
      six days before. */
  function Duplicate(hash: Hash, h: PushHistory, today: Day): bool
  {
    SeenWithin(hash, h, today, DUPLICATE_CHECK_DAYS)
  }

  lemma {:induction false} SeenWithinWindow(hash: Hash, h: PushHistory, today: Day, n: nat)
    ensures SeenWithin(hash, h, today, n) <==> exists d :: today - n < d <= today && d in h && hash in h[d]
  {
    if n > 0 {
      SeenWithinWindow(hash, h, today, n - 1);
    }
  }

  /** A fingerprint is a duplicate exactly when one of the seven days
      ending with `today` lists it; one listed only under older (or later)
      dates is not. */
  lemma DuplicateWindow(hash: Hash, h: PushHistory, today: Day)
    ensures Duplicate(hash, h, today) <==>
              exists d :: today - DUPLICATE_CHECK_DAYS < d <= today && d in h && hash in h[d]
  {
    SeenWithinWindow(hash, h, today, DUPLICATE_CHECK_DAYS);
  }

  /** The source's loop: today, yesterday, ... with an early return on the
      first day that lists the fingerprint. */
  method IsArticleDuplicate(hash: Hash, h: PushHistory, today: Day) returns (dup: bool)
    ensures dup == Duplicate(hash, h, today)
  {
    DuplicateWindow(hash, h, today);
    var i := 0;
    while i < DUPLICATE_CHECK_DAYS
      invariant 0 <= i <= DUPLICATE_CHECK_DAYS
      invariant forall d :: today - i < d <= today ==> !(d in h && hash in h[d])
    {
      var checkDate := today - i;
      if checkDate in h && hash in h[checkDate] {
        return true;
      }
      i := i + 1;
    }
    return false;
  }

  /** Retention is longer than the lookback: purging with a cutoff at most
      six days before `today` never changes what counts as a duplicate. */
  lemma PurgeKeepsDuplicates(hash: Hash, h: PushHistory, today: Day, cutoff: int)
    requires cutoff <= today - (DUPLICATE_CHECK_DAYS - 1)
    ensures Duplicate(hash, Purged(h, cutoff), today) == Duplicate(hash, h, today)
  {
    var p := Purged(h, cutoff);
    DuplicateWindow(hash, h, today);
    DuplicateWindow(hash, p, today);
    if Duplicate(hash, h, today) {
      var d :| today - DUPLICATE_CHECK_DAYS < d <= today && d in h && hash in h[d];
      assert d in p && hash in p[d];
    }
  }
}
