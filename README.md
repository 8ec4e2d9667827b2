# Geology literature pusher: the article pipeline

`sniffer_geo_pro.py` polls the RSS feeds of a list of geology journals once a
day. It keeps the entries that mention a core keyword (carbonate rocks,
microbial mineralization, natural hydrogen, ocean oxidation) and scores them
by keyword hits and journal tier. It drops anything pushed in the last seven
days. The surviving article records go into a per-day queue, and up to two
messages of six articles each are pushed. The push history records the
fingerprints of what was pushed. When today's queue is short, the first
message is topped up with articles left over from earlier days.

This project models that pipeline and proves what it promises:

- **Scoring** (`scoring.dfy`): the keyword lists, the tier weights, the gate
  `has_core_keywords` and the score `calculate_priority_score`.
- **Fingerprint** (`fingerprint.dfy`): `generate_article_hash` over
  `str.strip`.
- **History** (`history.dfy`): the push history. It covers the sixty-day purge
  and the seven-day duplicate check.
- **RssStatus** (`rss_status.dfy`): the feed status table and the integer
  fields of its summary.
- **Articles** (`articles.dfy`): the article record and `filter_articles`
  after the fetch. That is the status record, plus the entry loop with its
  duplicate skip and keyword gate.
- **Queue** (`queue.dfy`): admission into today's queue without repeating a
  fingerprint, and the stable sort by score.
- **Backlog** (`backlog.dfy`): `find_historical_articles`. It has the
  collection loops, the backup-file pass, the pass over earlier days in date
  order, and the best-scores-first cut.
- **Batching** (`batching.dfy`): the two-batch slicing of `main`.
- **Pusher** (`pusher.dfy`): the daily run of `main` over a class `PushState`
  that holds the three dictionaries the run updates (`pushed_articles`,
  `push_schedule`, `rss_status`). Its methods change these fields step by step,
  as the source does, and are proved against specification functions.
- **Phrases** (`phrases.dfy`): `get_top_meaningful_phrases`.
- **Sorting** (`sorting.dfy`): the stable descending sort (Python's `sorted`
  with `reverse=True`, `Counter.most_common`), its properties, and `Take` for
  slicing with `[:n]`.

Dates are day ordinals (`Day = nat`). Zero-padded `YYYY-MM-DD` keys compare as
strings exactly as the days they name compare as numbers, so the source's
string comparisons (`k < cutoff_str`, `date_key < today`, `sorted(keys)`)
become comparisons of day numbers.

`find_historical_articles` as written can offer one article twice (see
Findings). The model keeps that function as written next to a corrected one
that offers each fingerprint once. Everything downstream uses the corrected
`Backlog.Backfill`: `Backlog.FindHistoricalArticles`, `Batching.BatchPlan`
and `Pusher.PushState.Run`.

## Model

| member | source | states |
|---|---|---|
| Scoring.ZoneWeight | sniffer_geo_pro.py:466-471 | The tier weight is 50, 30, 20 or 10 for tiers 1 to 4. Any other tier, the empty one included, gets the default 15. |
| Scoring.CalculatePriorityScore | sniffer_geo_pro.py:635-642 | The priority is ten per core match, plus one per auxiliary match, plus the tier weight. Each match count is bounded by its keyword list. |
| Scoring.HasCoreKeywords | sniffer_geo_pro.py:667-669 | The gate: some core keyword, lower-cased, occurs in the lower-cased text. Scoring.GateAgreesWithScore and Scoring.GateNeedsCore relate it to the score. |
| Scoring.CountMatchesExtremes | sniffer_geo_pro.py:637-638 | A count is 0 exactly when no keyword of the list occurs, and equals the list's length exactly when every keyword occurs. |
| Scoring.GateAgreesWithScore | sniffer_geo_pro.py:667-669 | The gate holds exactly when the score reports at least one core match (both directions). |
| Scoring.GateNeedsCore | sniffer_geo_pro.py:667-669 | A text that scores auxiliary matches but no core match fails the gate, however many auxiliary keywords it holds. A text that passes the gate scores at least 10 above its tier weight. |
| Scoring.ScoreMonotoneOnAppend | sniffer_geo_pro.py:635-642 | Appending text never lowers the core count, the auxiliary count or the priority. |
| Scoring.ScoreCoreStep | sniffer_geo_pro.py:637-641 | One more core keyword present, all else equal, raises the priority by exactly 10. |
| Scoring.ScoreAuxStep | sniffer_geo_pro.py:638-641 | One more auxiliary keyword present, all else equal, raises the priority by exactly 1. |
| Fingerprint.ArticleHash | sniffer_geo_pro.py:595-599 | The fingerprint: the stripped title, the separator, then the stripped link. Fingerprint.HashIgnoresSurroundingSpace, Fingerprint.TitleDistinguishes, Fingerprint.LinkDistinguishes and Fingerprint.SeparatorIsAmbiguous characterise it. |
| Fingerprint.StripShape | sniffer_geo_pro.py:596-597 | The stripped text is a slice of the input with only whitespace on either side, and it neither starts nor ends with whitespace. |
| Fingerprint.StripIdempotent | sniffer_geo_pro.py:596-597 | Stripping twice equals stripping once. |
| Fingerprint.HashIgnoresSurroundingSpace | sniffer_geo_pro.py:595-599 | Leading or trailing whitespace on the title or the link leaves the fingerprint unchanged. |
| Fingerprint.TitleDistinguishes | sniffer_geo_pro.py:595-599 | With the same link, different stripped titles give different fingerprints. |
| Fingerprint.LinkDistinguishes | sniffer_geo_pro.py:595-599 | With the same title, different stripped links give different fingerprints. |
| Fingerprint.SeparatorIsAmbiguous | sniffer_geo_pro.py:598 | The separator can occur in a title or a link: title "a" + separator with link "b", and title "a" with link separator + "b", share a fingerprint. |
| History.Purged | sniffer_geo_pro.py:586-591 | The purged history has exactly the dates at or after the cutoff, each with its list unchanged. |
| History.Duplicate | sniffer_geo_pro.py:601-607 | The duplicate predicate: the fingerprint is listed under today or one of the six days before. History.DuplicateWindow characterises it, and History.IsArticleDuplicate computes it with the source's loop. |
| History.SeenWithinWindow | sniffer_geo_pro.py:603-606 | Looking back n days finds a fingerprint exactly when one of the n days ending today lists it. |
| History.DuplicateWindow | sniffer_geo_pro.py:601-607 | A fingerprint is a duplicate exactly when one of the seven days ending today lists it. Dates outside that window do not count. |
| History.IsArticleDuplicate | sniffer_geo_pro.py:601-607 | The loop, which returns early, answers exactly the seven-day duplicate predicate. |
| History.PurgeKeepsDuplicates | sniffer_geo_pro.py:486-487 | Purging with any cutoff at most six days before today (sixty days in the source) changes no duplicate verdict. |
| RssStatus.GetRssStatusSummary | sniffer_geo_pro.py:850-864 | total is the feed count, success is the number of success records, and failed is total minus success. A tier is in the tier statistics exactly when it has a success, and its value is that tier's number of successes. |
| Articles.MakeArticle | sniffer_geo_pro.py:735-751 | The record of a kept entry: its title, translated title, link, fingerprint, the score fields of its text and its feed's tier, the feed's title and origin, the text, and the publication date or the unknown-date marker. Articles.KeptArticleFacts states what the record guarantees. |
| Articles.FilterEntries | sniffer_geo_pro.py:722-752 | The entry loop returns exactly the articles of the kept entries, in entry order, and the number of entries skipped as duplicates. |
| Articles.FilterArticles | sniffer_geo_pro.py:703-776 | The record written is success exactly when the fetch returned entries. Otherwise it is empty, timeout, http_error, connection_error or unknown_error, by outcome, with tier and journal. Only a success yields articles, namely the kept ones. |
| Articles.KeptArticlesExact | sniffer_geo_pro.py:722-752 | An article is collected exactly when it is the record of an entry that is not a duplicate and passes the gate (both directions). |
| Articles.KeptArticleFacts | sniffer_geo_pro.py:728-751 | A collected article has at least one core match, is not a recent duplicate, carries its feed's tier and weight, has priority = 10·core + aux + weight, and scores at least 10 + weight. |
| Articles.FilterCountsBounded | sniffer_geo_pro.py:728-734 | Duplicates skipped plus articles kept never exceed the number of entries. |
| Sorting.SortDesc | sniffer_geo_pro.py:986 | The sort returns a permutation of its input, ordered by key with the largest first. |
| Sorting.SortDescStable | sniffer_geo_pro.py:986 | The sort is stable: for each key value, the elements with that key keep their input order. |
| Queue.Admitted | sniffer_geo_pro.py:982-984 | The admission loop: each found article is appended unless its fingerprint is already queued, including one appended earlier in the same loop. The Queue.Admitted* lemmas below characterise it. |
| Queue.AdmittedExtends | sniffer_geo_pro.py:982-984 | Admission keeps the old queue in front, unchanged, and grows it by at most the number found. Everything appended was found and has a fingerprint that was not queued. |
| Queue.AdmittedCovers | sniffer_geo_pro.py:982-984 | After admission, every found article's fingerprint is in the queue. |
| Queue.AdmittedDistinct | sniffer_geo_pro.py:982-984 | A queue without repeated fingerprints has none after admission, even when the found list repeats them. |
| Queue.AdmittedAllQueued | sniffer_geo_pro.py:982-984 | Admitting articles whose fingerprints are all queued leaves the queue unchanged. |
| Queue.AdmittedIdempotent | sniffer_geo_pro.py:982-984 | Admitting the same found list twice has the effect of admitting it once. |
| Queue.AdmittedConcat | sniffer_geo_pro.py:982-984 | Admitting xs and then ys gives the same queue as admitting xs + ys. |
| Queue.SortByScoreFacts | sniffer_geo_pro.py:986 | Sorting today's queue is a permutation, orders it by score from highest, keeps queue order among equal scores, and keeps fingerprints distinct. |
| Backlog.CollectPushedHashes | sniffer_geo_pro.py:794-797 | The collection loop returns exactly the set of fingerprints listed under any date of the history. |
| Backlog.AllPushedAdd | sniffer_geo_pro.py:794-797 | Adding one date's list adds exactly that list's fingerprints to the pushed set. |
| Backlog.CollectScheduledHashes | sniffer_geo_pro.py:798-801 | The loop returns exactly the fingerprints of today's queue, or none if today has no queue. |
| Backlog.UnseenMembers | sniffer_geo_pro.py:814-815 | An article passes the filter exactly when it is in the list and its fingerprint is neither pushed nor queued today. |
| Backlog.UnseenAllMembers | sniffer_geo_pro.py:809-816 | Every article from the backup pass has an allowed fingerprint and comes from one of the backup lists. |
| Backlog.AppendUnseen | sniffer_geo_pro.py:814-816 | The loop appends the list's allowed articles, skipping any fingerprint already collected. |
| Backlog.BackupPass | sniffer_geo_pro.py:809-816 | The backup pass returns the allowed articles of the backup lists, in order, each fingerprint once. |
| Backlog.SortedKeys | sniffer_geo_pro.py:820 | The loop returns the schedule's dates in increasing order. |
| Backlog.SortedDaysFacts | sniffer_geo_pro.py:820 | The sorted dates are exactly the schedule's dates, strictly increasing, so each appears once. |
| Backlog.PastPassMembers | sniffer_geo_pro.py:819-824 | Every article from the schedule pass has an allowed fingerprint and was queued on a date before today. |
| Backlog.SchedulePass | sniffer_geo_pro.py:819-824 | The loop over the sorted dates appends the allowed articles of every earlier day, day by day, skipping any fingerprint already collected. |
| Backlog.CandidateOrigin | sniffer_geo_pro.py:809-824 | A candidate was never pushed, is not queued today, and comes from a backup list or from an earlier day's queue. |
| Backlog.CandidatesDistinct | sniffer_geo_pro.py:809-824 | No two candidates share a fingerprint. |
| Backlog.BestByScore | sniffer_geo_pro.py:825-826 | The first n of the sorted candidates are min(n, count) of them, ordered by score and drawn from the candidates, with no repeated fingerprint if the candidates had none. |
| Backlog.BackfillFacts | sniffer_geo_pro.py:790-826 | A backfill offers nothing when nothing is needed, and otherwise min(needed, candidates). It is ordered by score, repeats no fingerprint, and offers only articles never pushed and not queued today, each from a backup list or an earlier day. |
| Backlog.BackfillPicksBest | sniffer_geo_pro.py:825-826 | A candidate left out scores no higher than any article offered, and then exactly the needed number were offered. |
| Backlog.BackfillAsWritten | sniffer_geo_pro.py:790-826 | `find_historical_articles` as written: the candidates of both passes, repeats included,, sorted by score and cut after `needed`. Backlog.BackfillAsWrittenRepeats shows that it can repeat an article. |
| Backlog.Backfill | sniffer_geo_pro.py:790-826 | The corrected backfill, which collects each fingerprint once. Backlog.BackfillFacts, Backlog.BackfillPicksBest and Backlog.BackfillFillsUp characterise it. |
| Backlog.CandidatesCoverBackups | sniffer_geo_pro.py:809-816 | The converse of Backlog.CandidateOrigin for the backup files: an article of a backup list whose fingerprint was never pushed and is not queued today has its fingerprint among the candidates. |
| Backlog.CandidatesCoverSchedule | sniffer_geo_pro.py:819-824 | The converse for earlier queues: once the backup pass has fallen short, an article queued before today whose fingerprint was never pushed and is not queued today has its fingerprint among the candidates. |
| Backlog.EligibleAreCandidates | sniffer_geo_pro.py:809-824 | Once the backup pass has fallen short, every eligible fingerprint, from a backup file or from an earlier queue, is a candidate's fingerprint. |
| Backlog.BackfillFillsUp | sniffer_geo_pro.py:809-826 | With at least `needed` eligible fingerprints in the backup files and the earlier queues, the backfill offers exactly `needed` articles. |
| Backlog.FindHistoricalArticles | sniffer_geo_pro.py:790-826 | The method (collection loops, backup pass, schedule pass only while short, sort, cut) computes the corrected backfill. |
| Backlog.LeftoverCandidatesAsWritten | sniffer_geo_pro.py:809-824 | With yesterday's leftover article also in yesterday's backup file, the source collects it twice. |
| Backlog.BackfillAsWrittenRepeats | sniffer_geo_pro.py:809-826 | For that input, the source's function returns the same article twice, so its result repeats a fingerprint. |
| Backlog.BackfillOffersOnce | sniffer_geo_pro.py:809-826 | For that input, the corrected backfill offers the article once. |
| Batching.BatchPlan | sniffer_geo_pro.py:997-1012 | The batching block: the first six queued, topped up by the backfill when short, the next six, and the rest. The Batching lemmas below characterise it, and Pusher.PushState.TakeBatches computes it. |
| Batching.BatchSizes | sniffer_geo_pro.py:997-1009 | Neither batch holds more than six articles. |
| Batching.BatchPartition | sniffer_geo_pro.py:997-1012 | The queued part of the first batch, the second batch and what stays queued are today's queue, cut in three, in order. |
| Batching.BackfillOnlyWhenShort | sniffer_geo_pro.py:1000-1005 | A queue shorter than six is used up: the first batch is the queue plus the backfill, and nothing else is pushed or kept. A queue of six or more fills the first batch itself. |
| Batching.FirstBatchFull | sniffer_geo_pro.py:997-1005 | The first batch holds exactly six articles when six are queued, or when the backlog's eligible fingerprints close the gap, for example two queued and four eligible. |
| Batching.BackfillAvoidsQueue | sniffer_geo_pro.py:798-801 | No backfilled article shares a fingerprint with today's queue. |
| Batching.BatchesDistinct | sniffer_geo_pro.py:997-1012 | If today's queue repeats no fingerprint, the two batches and what stays queued together repeat none. |
| Batching.BackfilledNeverPushed | sniffer_geo_pro.py:1000-1005 | No backfilled part of the first batch was pushed on any date of the history, so none of it is a duplicate today. |
| Pusher.PushState.constructor | sniffer_geo_pro.py:943-945 | The state starts as the loaded history, schedule and status table. |
| Pusher.PushState.CleanOldRecords | sniffer_geo_pro.py:586-591 | Deleting the old dates one by one leaves the purged history. The schedule and status table are untouched. |
| Pusher.PushState.StartDay | sniffer_geo_pro.py:946-949 | The history is purged at 60 days, and today gets an empty queue if it has none. |
| Pusher.PushState.ProcessFeeds | sniffer_geo_pro.py:961-965 | The feed loop collects, in feed order, the kept articles of each successful fetch, and writes each feed's status under its URL. |
| Pusher.FoundFacts | sniffer_geo_pro.py:961-965 | Every found article is the record of a kept entry of a successful fetch of one of the feeds. So it has a core match and is not a recent duplicate. |
| Pusher.StatusesUntouched | sniffer_geo_pro.py:963 | A URL that no polled feed has keeps its old record, or stays absent. |
| Pusher.StatusesLast | sniffer_geo_pro.py:963 | A polled URL holds the status of its last fetch. |
| Pusher.PushState.Admit | sniffer_geo_pro.py:982-986 | The admission loop and the sort leave today's queue as the admitted, sorted queue, and change nothing else. |
| Pusher.QueuedFacts | sniffer_geo_pro.py:982-986 | Admission and the sort keep a repeat-free queue repeat-free and reorder only what was admitted. Other dates are untouched. |
| Pusher.QueuedCovers | sniffer_geo_pro.py:982-986 | After admission and the sort, every found article's fingerprint is in today's queue. |
| Pusher.PushState.TakeBatches | sniffer_geo_pro.py:997-1012 | The batching block returns the two batches of the plan and leaves the rest of today's queue queued. Other dates, the history and the status table are unchanged. |
| Pusher.PushState.RecordBatch | sniffer_geo_pro.py:1035-1038 | Today's history entry, created if missing, is extended by the batch's fingerprints in order. Nothing else changes. |
| Pusher.PushState.PushBatches | sniffer_geo_pro.py:997-1059 | The batches are those of the plan. History records the first batch's fingerprints and then the second's, and only if the first batch is non-empty. |
| Pusher.RecordedMarksDuplicates | sniffer_geo_pro.py:1035-1059 | After a push, every pushed fingerprint is a duplicate on that day and the six days after, so it cannot be admitted or pushed again within the week. |
| Pusher.RecordedExtends | sniffer_geo_pro.py:1035-1059 | Recording touches today's history entry only, and keeps what it held in front. |
| Pusher.PushState.Run | sniffer_geo_pro.py:943-1059 | One day's run: purge, poll, admit, cut and record. The found articles, status table, batches, leftover queue and new history are each stated in terms of the old state. |
| Phrases.TopPhrases | sniffer_geo_pro.py:828-835 | `get_top_meaningful_phrases`: nothing for an empty input or one with only short phrases; otherwise `most_common(n)` of the stripped phrases. Phrases.TopPhrasesFacts characterises it. |
| Phrases.NormalizedMembers | sniffer_geo_pro.py:831 | A counted phrase is exactly the stripped form of a non-empty input phrase of at least four characters after stripping (both directions). |
| Phrases.FirstAppearancesFacts | sniffer_geo_pro.py:834 | The counter's keys are exactly the distinct phrases, each once. |
| Phrases.CountedFacts | sniffer_geo_pro.py:834 | Each counter item is a phrase with its number of occurrences, at least one. Each phrase has exactly one item. |
| Phrases.BestCounts | sniffer_geo_pro.py:835 | most_common(n) returns at most n items, most frequent first, each with its true count. |
| Phrases.BestDistinct | sniffer_geo_pro.py:835 | most_common(n) lists no phrase twice. |
| Phrases.BestComplete | sniffer_geo_pro.py:835 | A phrase left out occurs no more often than any phrase returned, and then n were returned. |
| Phrases.TopPhrasesFacts | sniffer_geo_pro.py:828-835 | The top phrases number at most n and come most frequent first, with their true counts and no phrase twice. Any counted phrase left out occurs no more often than each one returned. An empty input, or one with only short phrases, gives none. |

## Left out

- Fetching (HTTP with three retries, the 15-second timeout, the headers) and `feedparser` are not modelled. Each feed's fetch is an input `FetchOutcome`: parsed entries, or the kind of failure the source tells apart.
- Journal list loading, RSS discovery and the RSS update decision run before the pipeline; they are not modelled. The feeds are an input list.
- `translate_to_chinese` is a network service. It is the parameter `translate`, and the model assumes it always returns.
- An exception raised inside the entry loop, which the source reports as `unknown_error`, is not modelled. The loop's own steps are total in the model.
- `extract_publication_date` is not modelled; its result is the entry's `pubDate` input. `extract_meaningful_phrases` is not modelled either; the phrases are the input of `Phrases.TopPhrases`.
- `str.lower` and `str.strip` are modelled on ASCII letters and ASCII whitespace only. Python applies them to all of Unicode.
- `hashlib.md5` is not modelled. The fingerprint is the hashed text itself, so MD5 collisions are ignored.
- The clock is a parameter: `today` is a day ordinal and the purge's cutoff is `today - 60`. In the source, the 10-day window of backup files comes from `datetime.now()`; in the model it is the input list `backups`, newest first.
- Concurrency is not modelled: the one-hour `SIGALRM` limit on the feed loop, the waits between feeds and batches, and `random`. The alarm handler raises `TimeoutError` (sniffer_geo_pro.py:954-957). If it fires while `filter_articles` runs, which is where nearly all of the hour is spent, the handler's error is caught by that function's catch-all branch (sniffer_geo_pro.py:772-776). That feed is then recorded as `unknown_error` with no articles, and the loop goes on over the remaining feeds with no alarm left. This case is `ProcessFeeds` with that feed's outcome set to `OtherFailure`. Only an alarm that fires between two calls (sniffer_geo_pro.py:962, 964-971) stops the loop, which is `ProcessFeeds` on the prefix of feeds processed so far.
- Reading and writing the JSON files is not modelled: the loads and saves of the three dictionaries, the periodic status saves, and the backup file `push_schedule_<date>.json`. The state is the fields of `PushState`, and the backup lists are an input.
- Message formatting and `push_to_wechat` are not modelled, so a failed webhook call changes nothing. The history is recorded as the source records it, whatever the webhook answered.
- RssStatus.GetRssStatusSummary: does not compute `success_rate`, a rounded floating-point percentage.
- Status records keep the kind, day, journal and tier. The source's `error` message text is left out, as is the difference between the `last_success` and `last_attempt` field names.
- The `ZONE_WEIGHTS` literal in `sniffer_geo_pro.py:466-471` is missing its closing brace, so the file does not parse as given. The model uses the evident table of five entries.
- Only the tier-`zone` part of the summary's tier statistics is modelled. A record without a tier field, which the source reads as `未知`, cannot arise in the model, because every record carries its tier.

## Findings

| source | as written | input that shows it | evidently intended | confidence | as-written member | corrected member |
|---|---|---|---|---|---|---|
| sniffer_geo_pro.py:809-826 | The backup-file pass and the pass over earlier days' queues both append to the candidate list, and neither checks what is already there. Yesterday's backup file is a dump of `push_schedule`, and yesterday's entry in it is the same leftover queue that `push_schedule` still holds. So a leftover article is collected twice, and it can be pushed twice in one message. | Nothing pushed. Day 1's queue holds article A, the record built for an entry titled "Ocean oxidation", and day 1's backup file holds the same queue. On day 2 the queue is empty and 6 are needed. The result is [A, A]. | Each fingerprint is offered by the backfill at most once. | not executed | Backlog.BackfillAsWrittenRepeats | Backlog.BackfillFacts |

The corrected `Backlog.Backfill` collects through the queue's admission rule (`Queue.Admitted`), so a fingerprint already collected is skipped. The schedule pass still runs only while fewer candidates than needed have been collected, counted after that skip. `Backlog.BackfillOffersOnce` shows the corrected result for the same input.
