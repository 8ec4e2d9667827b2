/** Article records and the per-feed filter (`filter_articles`): duplicate
    entries are skipped and counted, entries without a core keyword are
    dropped, the rest become scored article records. */
module Articles {
  import opened Scoring
  import opened Fingerprint
  import opened History
  import opened RssStatus

  datatype Option<T> = None | Some(value: T)

  /** A polled feed: URL, journal title, origin label and journal tier. */
  datatype FeedInfo = FeedInfo(url: string, title: string, source: string, zone: string)

  /** One parsed feed entry. A missing or empty field is the empty string;
      `pubDate` is what the date extraction found, if anything. */
  datatype Entry = Entry(title: string, link: string, summary: string, description: string, pubDate: Option<string>)

  /** What fetching a feed produced: its parsed entries, or the kind of
      failure the source distinguishes. */
  datatype FetchOutcome = Fetched(entries: seq<Entry>) | TimedOut | HttpFailed(code: int) | ConnectionFailed | OtherFailure

  /** The record `filter_articles` builds for a kept entry. */
  datatype Article = Article(
    title: string, chineseTitle: string, link: string, hash: Hash,
    priorityScore: int, coreMatches: nat, auxMatches: nat,
    zone: string, zoneWeight: int, source: string, sourceType: string,
    text: string, pubDate: string)

  /** Shown when no publication date was found. */
  const UNKNOWN_DATE: string := "未知日期"

  /** `entry.get("summary", "") or entry.get("description", "") or ""`. */
  function SummaryOf(e: Entry): string
  {
    if e.summary != "" then e.summary else e.description
  }

  /** The text that is gated and scored: title, a space, summary. */
  function EntryText(e: Entry): string
  {
    e.title + " " + SummaryOf(e)
  }

  function EntryHash(e: Entry): Hash
  {
    ArticleHash(e.title, e.link)
  }

  /** The entry survives the loop body: it was not pushed in the last seven
      days and its text holds a core keyword. */
  predicate Kept(e: Entry, pushed: PushHistory, today: Day)
  {
    !Duplicate(EntryHash(e), pushed, today) && HasCoreKeywords(EntryText(e))
  }

  /** The article record of an entry of `feed`; `translate` stands for the
      translation service. */
  function MakeArticle(e: Entry, feed: FeedInfo, translate: string -> string): Article
  {
    var text := EntryText(e);
    var score := CalculatePriorityScore(text, feed.zone);
    Article(e.title, translate(e.title), e.link, EntryHash(e),
            score.priority, score.coreMatches, score.auxMatches,
            feed.zone, score.zoneWeight, feed.title, feed.source,
            text, if e.pubDate.Some? && e.pubDate.value != "" then e.pubDate.value else UNKNOWN_DATE)
  }

  /** The images under `make` of the elements of `s` that satisfy `keep`,
      in the order of `s`. */
  function FilterMap<A, B>(s: seq<A>, keep: A -> bool, make: A -> B): seq<B>
  {
    if s == [] then []
    else FilterMap(s[..|s| - 1], keep, make) + (if keep(s[|s| - 1]) then [make(s[|s| - 1])] else [])
  }

  /** The number of elements of `s` that satisfy `p`. */
  function CountWhere<A>(s: seq<A>, p: A -> bool): nat
  {
    if s == [] then 0
    else CountWhere(s[..|s| - 1], p) + (if p(s[|s| - 1]) then 1 else 0)
  }

  lemma FilterMapSnoc<A, B>(s: seq<A>, x: A, keep: A -> bool, make: A -> B)
    ensures FilterMap(s + [x], keep, make) == FilterMap(s, keep, make) + (if keep(x) then [make(x)] else [])
    ensures CountWhere(s + [x], keep) == CountWhere(s, keep) + (if keep(x) then 1 else 0)
  {
    assert (s + [x])[..|s|] == s;
  }

  /** An element of the result is the image of a kept element, and every
      kept element has its image in the result. */
  lemma {:induction false} FilterMapExact<A, B>(s: seq<A>, keep: A -> bool, make: A -> B, b: B)
    ensures b in FilterMap(s, keep, make) <==> exists x :: x in s && keep(x) && b == make(x)
  {
    if s != [] {
      var front := s[..|s| - 1];
      FilterMapExact(front, keep, make, b);
      assert s == front + [s[|s| - 1]];
    }
  }

  /** When no element is both kept and counted, the kept and the counted
      elements together are at most all of them. */
  lemma {:induction false} FilterMapCountBound<A, B>(s: seq<A>, keep: A -> bool, make: A -> B, p: A -> bool)
    requires forall x :: keep(x) ==> !p(x)
    ensures CountWhere(s, p) + |FilterMap(s, keep, make)| <= |s|
  {
    if s != [] {
      FilterMapCountBound(s[..|s| - 1], keep, make, p);
    }
  }

  function KeepFor(pushed: PushHistory, today: Day): Entry -> bool
  {
    e => Kept(e, pushed, today)
  }

  function DuplicateFor(pushed: PushHistory, today: Day): Entry -> bool
  {
    e => Duplicate(EntryHash(e), pushed, today)
  }

  function MakeFor(feed: FeedInfo, translate: string -> string): Entry -> Article
  {
    e => MakeArticle(e, feed, translate)
  }

  /** The articles the entry loop collects, in entry order. */
  function KeptArticles(entries: seq<Entry>, feed: FeedInfo, pushed: PushHistory, today: Day,
                        translate: string -> string): seq<Article>
  {
    FilterMap(entries, KeepFor(pushed, today), MakeFor(feed, translate))
  }

  /** The number of entries skipped as duplicates. */
  function DuplicateCount(entries: seq<Entry>, pushed: PushHistory, today: Day): nat
  {
    CountWhere(entries, DuplicateFor(pushed, today))
  }

  /** The entry loop of `filter_articles` over already parsed entries. */
  method FilterEntries(entries: seq<Entry>, feed: FeedInfo, pushed: PushHistory, today: Day,
                       translate: string -> string)
    returns (filtered: seq<Article>, duplicates: nat)
    ensures filtered == KeptArticles(entries, feed, pushed, today, translate)
    ensures duplicates == DuplicateCount(entries, pushed, today)
  {
    filtered, duplicates := [], 0;
    var i := 0;
    while i < |entries|
      invariant 0 <= i <= |entries|
      invariant filtered == KeptArticles(entries[..i], feed, pushed, today, translate)
      invariant duplicates == DuplicateCount(entries[..i], pushed, today)
    {
      var entry := entries[i];
      assert entries[..i + 1] == entries[..i] + [entry];
      FilterMapSnoc(entries[..i], entry, KeepFor(pushed, today), MakeFor(feed, translate));
      FilterMapSnoc(entries[..i], entry, DuplicateFor(pushed, today), MakeFor(feed, translate));
      var articleHash := ArticleHash(entry.title, entry.link);
      var dup := IsArticleDuplicate(articleHash, pushed, today);
      if dup {
        duplicates := duplicates + 1;
      } else {
        var text := EntryText(entry);
        if HasCoreKeywords(text) {
          filtered := filtered + [MakeArticle(entry, feed, translate)];
        }
      }
      i := i + 1;
    }
    assert entries[..i] == entries;
  }

  /** The status record a fetch leaves for its feed. */
  function StatusAfter(feed: FeedInfo, outcome: FetchOutcome, today: Day): FeedStatus
  {
    var kind := match outcome
      case Fetched(entries) => if entries == [] then Empty else Success
      case TimedOut => Timeout
      case HttpFailed(_) => HttpError
      case ConnectionFailed => ConnectionError
      case OtherFailure => UnknownError;
    FeedStatus(kind, today, feed.title, feed.zone)
  }

  /** `filter_articles` after the fetch: the kept articles and the status
      record for `rss_status[feed.url]`. A failed or empty fetch keeps nothing. */
  method FilterArticles(feed: FeedInfo, outcome: FetchOutcome, today: Day, pushed: PushHistory,
                        translate: string -> string)
    returns (articles: seq<Article>, status: FeedStatus)
    ensures status == StatusAfter(feed, outcome, today)
    ensures status.kind == Success <==> outcome.Fetched? && outcome.entries != []
    ensures articles == if status.kind == Success
                        then KeptArticles(outcome.entries, feed, pushed, today, translate) else []
  {
    status := StatusAfter(feed, outcome, today);
    if outcome.Fetched? && outcome.entries != [] {
      var duplicates;
      articles, duplicates := FilterEntries(outcome.entries, feed, pushed, today, translate);
    } else {
      articles := [];
    }
  }

  /** Every kept article comes from a kept entry, carries that entry's
      fingerprint and score, and every kept entry yields its article. */
  lemma KeptArticlesExact(entries: seq<Entry>, feed: FeedInfo, pushed: PushHistory,
                          today: Day, translate: string -> string, a: Article)
    ensures a in KeptArticles(entries, feed, pushed, today, translate) <==>
              exists e :: e in entries && Kept(e, pushed, today) && a == MakeArticle(e, feed, translate)
  {
    FilterMapExact(entries, KeepFor(pushed, today), MakeFor(feed, translate), a);
  }

  /** A kept article passed the gate, is not a recent duplicate, and its
      score fields are those of its text and tier; an entry that only
      matches auxiliary keywords never becomes an article. */
  lemma KeptArticleFacts(entries: seq<Entry>, feed: FeedInfo, pushed: PushHistory, today: Day,
                         translate: string -> string, a: Article)
    requires a in KeptArticles(entries, feed, pushed, today, translate)
    ensures a.coreMatches >= 1 && HasCoreKeywords(a.text)
    ensures !Duplicate(a.hash, pushed, today)
    ensures a.zone == feed.zone && a.zoneWeight == ZoneWeight(feed.zone)
    ensures a.priorityScore == a.coreMatches * CORE_WEIGHT + a.auxMatches + a.zoneWeight
    ensures a.priorityScore >= CORE_WEIGHT + ZoneWeight(feed.zone)
  {
    KeptArticlesExact(entries, feed, pushed, today, translate, a);
    var e :| e in entries && Kept(e, pushed, today) && a == MakeArticle(e, feed, translate);
    GateAgreesWithScore(EntryText(e), feed.zone);
  }

  /** Each entry is a duplicate, kept, or dropped by the gate, so the two
      counts never exceed the number of entries. */
  lemma FilterCountsBounded(entries: seq<Entry>, feed: FeedInfo, pushed: PushHistory,
                            today: Day, translate: string -> string)
    ensures DuplicateCount(entries, pushed, today) + |KeptArticles(entries, feed, pushed, today, translate)| <= |entries|
  {
    FilterMapCountBound(entries, KeepFor(pushed, today), MakeFor(feed, translate), DuplicateFor(pushed, today));
  }
}
