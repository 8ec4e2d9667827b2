/** The per-feed fetch status table (`rss_status`) and its integer summary
    (`get_rss_status_summary`). */
module RssStatus {
  import opened History

  /** The values the source writes into a record's `status` field. */
  datatype StatusKind = Success | Empty | Timeout | HttpError | ConnectionError | UnknownError

  /** One `rss_status[url]` record: its status, the day of the attempt, the
      journal title and the journal tier. */
  datatype FeedStatus = FeedStatus(kind: StatusKind, day: Day, journal: string, zone: string)

  /** Feed URL to the last recorded status. The table is loaded from the
      previous run, so it may hold URLs that are no longer polled. */
  type StatusTable = map<string, FeedStatus>

  /** The integer fields of the summary dictionary. */
  datatype Summary = Summary(total: int, success: nat, failed: int, zoneStats: map<string, nat>)

  /** The URLs of `urls` whose record is a success in tier `z`. */
  function SuccessesInZone(st: StatusTable, urls: set<string>, z: string): set<string>
  {
    set u | u in urls && u in st && st[u].kind == Success && st[u].zone == z
  }

  /** Adding one URL to the counted ones adds it to its own tier's
      successes and to no other tier's. */
  lemma SuccessesInZoneStep(st: StatusTable, urls: set<string>, u: string, z: string)
    requires u in st && u !in urls
    ensures SuccessesInZone(st, urls + {u}, z) ==
              SuccessesInZone(st, urls, z) + (if st[u].kind == Success && st[u].zone == z then {u} else {})
  {
  }

  /** `get_rss_status_summary(st, totalFeeds)` without `success_rate`. */
  method GetRssStatusSummary(st: StatusTable, totalFeeds: int) returns (s: Summary)
    ensures s.total == totalFeeds
    ensures s.success == |set u | u in st && st[u].kind == Success|
    ensures s.failed == totalFeeds - s.success
    ensures forall z :: z in s.zoneStats <==> SuccessesInZone(st, st.Keys, z) != {}
    ensures forall z :: z in s.zoneStats ==> s.zoneStats[z] == |SuccessesInZone(st, st.Keys, z)|
  {
    var successes := set u | u in st && st[u].kind == Success;
    var success := |successes|;
    var zoneStats: map<string, nat> := map[];
    var todo := st.Keys;
    while todo != {}
      invariant todo <= st.Keys
      invariant forall z :: z in zoneStats <==> SuccessesInZone(st, st.Keys - todo, z) != {}
      invariant forall z :: z in zoneStats ==> zoneStats[z] == |SuccessesInZone(st, st.Keys - todo, z)|
      decreases todo
    {
      var u :| u in todo;
      ghost var done := st.Keys - todo;
      if st[u].kind == Success {
        var z := st[u].zone;
        zoneStats := zoneStats[z := (if z in zoneStats then zoneStats[z] else 0) + 1];
      }
      todo := todo - {u};
      assert st.Keys - todo == done + {u};
      forall z
        ensures z in zoneStats <==> SuccessesInZone(st, done + {u}, z) != {}
        ensures z in zoneStats ==> zoneStats[z] == |SuccessesInZone(st, done + {u}, z)|
      {
        SuccessesInZoneStep(st, done, u, z);
      }
    }
    assert st.Keys - todo == st.Keys;
    s := Summary(totalFeeds, success, totalFeeds - success, zoneStats);
  }
}
