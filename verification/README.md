# A verified model of the skill catalogue

This project models the stateful parts of the skill marketplace and proves what they promise:

- **SwrCache** – the web server's in-process stale-while-revalidate cache (section 3 of RFC 5861) with its
  table of refreshes in flight, as a transition system over requests, resolutions, rejections and
  `finally` callbacks, and as a class that updates two maps in place.
- **Events** – tracking transactions that interleave under a per-skill advisory lock, against the event log
  and the popularity counters.
- **Calendar**, **UsageLedger**, **UsageTransactions** – the per-key rate limiter and its three usage ledgers,
  call by call and with transactions that interleave.
- **SitemapCrawler** – the budgeted crawl of a web directory's sitemaps.
- **RawQueue**, **BatchQuery**, **QueueRace**, **QueueRuns** – sources, queued documents, re-queues and batches;
  and one row under two transactions that overlap, or any number of them.
- **Catalogue** – filing accepted documents: lookup, migration of legacy rows, slug allocation.
- **Worker**, **WorkerGates**, **EndToEnd** – the batch that judges, files and counts; the loop that drains the
  queue; and what a document's way from the queue to the public listing guarantees.
- **Listing**, **SearchModes** – selection, order, pages, weights and the fallback of the skill listing.
- **ClaudeSpec**, **SkillQuality**, **TrustScore**, **Frontmatter** – validation, scoring and trust.
- **SkillUrls**, **RepoUrls**, **PublicFilters**, **DocumentUrls**, **CacheKey**, **PackId** – pure transformations of URLs, keys and
  identifiers.
- **Basics**, **Text**, **Sorting** – optional values, sets, strings and sorting, shared by the others.

Code that changes state step by step is written as classes and methods with loops, each proved equal to a
specification function; the properties are lemmas about those functions, over every input, run or
interleaving. Times are integers (microseconds, or milliseconds in the web cache), scores and weights exact
reals. `dafny verify dfyconfig.toml` checks everything.

Where the code does less than its documentation or its intent says, the model follows the code, the exact
condition is proved for all inputs, and a failing input is given:

- Within ten seconds of the check of a counted view another view of the session can count, because an event
  carries the start of its transaction (`created_at` defaults to `now()`) and not the time of the check: it can
  exactly when the transactions of all counted views of the session began before that check
  (`Events.WindowLeaksIff`; a run: `Events.LockWaitDefeatsTheWindow`).
- Normalising a skill URL a second time changes it exactly when the last segment kept has a semicolon or ends
  in a space (`SkillUrls.NormalizeIdempotent`; inputs: `SkillUrls.SecondPassChanges`).
- `docs/HYBRID_SEARCH.md` promises keyword mode whenever no embedding can be had; the search is refused
  instead exactly when it is a hybrid one with a text for weights, more than white space, that does not give
  both sides a weight, neither negative and not both zero (`Listing.FallbackIsKeywordMode`; an input:
  `Listing.OneWeightIsRefused`).
- A search text matches just the texts it occurs in exactly when it has no percent sign, underscore or
  backslash (`Listing.LiteralIff`; an input: `Listing.WildcardMatchesMore`).
- The worker files documents that the listing never shows: all but those on GitHub with the skills directory
  at the top of the repository, or under .claude there (`EndToEnd.AcceptedIsPublic`; an accepted, hidden
  document on another host: `EndToEnd.HiddenDocument`).
- A new source cannot be stored exactly when it has no URL, nobody bears its name, and another source has no
  URL either (`RawQueue.InsertFailsIff`; an input: `RawQueue.SecondNamelessSource`).
- A name that resolves to a source stays with it for good exactly when some source bears the name
  (`RawQueue.NeverMovesIff`; how it moves: `RawQueue.UnsettledNameMoves`).
- A batch and an upsert of one of its rows leave a stale verdict exactly when the content changed and they
  overlapped (`QueueRace.StaleIffOverlapped`; a run: `QueueRace.OverlapGoesStale`). With any number of batches,
  rollbacks, upserts and re-queues a stale verdict is there exactly when a batch has settled the row, neither a
  re-queue nor an upsert that found it settled has queued it since, and the last content written is not the one
  judged; and only a write that overlapped the batch leaves that behind (`QueueRuns.StaleIff`).
- A pack identifier is shared by two repositories exactly when it has two underscores next to each other
  elsewhere than at its slash, not counting its ends (`PackId.SharedIff`; a pair: `PackId.SharedIdentifier`).
- Two cache namespaces can be mistaken for each other exactly when one goes on from the other with a colon and
  a slash, and without a question mark from there on (`CacheKey.CollideIff`; two requests:
  `CacheKey.SlashInNamespaceCollides`). The namespaces the application uses have no slash at all.
- `app/workers/ingest_and_parse.py:877` reads `raw.metadata`; the comment above it and the use of the value mean
  the stored ingest metadata, and so does the model.

## Model

| member | source | states |
|---|---|---|
| SwrCache.SingleFlight | web/src/lib/api.ts:150-190 | under every interleaving of requests, resolutions, rejections and finally-steps no two running refreshes share a key, and the in-flight table holds exactly the running one; the cache never exceeds 400 entries |
| SwrCache.ServedValue | web/src/lib/api.ts:94-190 | a value served from the cache is the one the latest completed fetch of that endpoint returned, at most ttl + stale time after its write, and at most ttl when no refresh is started or joined |
| SwrCache.RejectionReleases | web/src/lib/api.ts:167-179 | a failed refresh leaves the cached entries as they were and releases its key, so the next request starts a new one |
| SwrCache.PrivateNeverCached | web/src/lib/api.ts:51-54 | endpoints under /admin and /developer leave no entry in any run |
| SwrCache.WriteCapacity | web/src/lib/api.ts:81-110 | after a write there are at most 400 entries, the new one is there, what went was dead or the earliest-inserted live entry, and at most one live entry goes |
| SwrCache.WritePlace | web/src/lib/api.ts:103-108 | overwriting a key keeps its insertion place, a new key goes last |
| SwrCache.ServerCache.Prune | web/src/lib/api.ts:81-92 | both loops of the pruning, in place, leave what the specification leaves |
| SwrCache.ServerCache.Read | web/src/lib/api.ts:94-101 | a read returns fresh, stale or nothing and drops a dead entry |
| SwrCache.ServerCache.Write | web/src/lib/api.ts:103-110 | a write is the specified one |
| SwrCache.ServerCache.Request | web/src/lib/api.ts:150-190 | the synchronous part of a request takes the step of the transition system and gives its reply |
| SwrCache.ServerCache.OnResolve | web/src/lib/api.ts:171-174 | the callback of a completed fetch takes the resolve step |
| SwrCache.ServerCache.OnFinally | web/src/lib/api.ts:175-177 | the last callback takes the finally step |
| Events.LockKeyFold | app/api/events.py:22-28 | the advisory key fits a signed 64-bit integer, and two skills share it exactly when the xor of their two words agrees |
| Events.Serialisable | app/api/events.py:50-114 | every interleaving of transactions commits the state that its committed calls give when run one after the other, each of them counted |
| Events.CountersFoldTheLog | app/api/events.py:84-108 | in every committed state the counters of every skill are the counts of its events, and the score is views + 10 uses + 50 favorites; no update is lost, even between skills that share a lock key |
| Events.RowNeverMissing | app/api/events.py:86-97 | a transaction that reads the popularity row always finds it: the 500 is never sent |
| Events.EveryoneCanFinish | app/api/events.py:50-103 | no deadlock: from every state of every run, statements of the open transactions alone, none rolled back, close them all and free every lock |
| Events.DedupeBound | app/api/events.py:56-75 | a counted view of a session is checked more than 10 s after the stored time of every earlier one, and a favorite of a session counts once |
| Events.SessionBound | app/api/events.py:56-75 | when no call of a session is checked more than a lag after its transaction began, n counted views within a span satisfy n <= 1 or (10 s - lag) (n - 1) < span, and favorites n <= 1 |
| Events.WindowLeaksIff | app/api/events.py:50-78 | in every run, another view of a session can count within ten seconds of the check of a counted one exactly when the transactions of all its counted views began before that check |
| Events.LockWaitDefeatsTheWindow | app/api/events.py:50-78 | such a run: a view begins while another transaction holds the lock and waits for it; it and a second view of its session checked half a second later both count |
| Events.EventStore.TrackEvent | app/api/events.py:32-116 | the call, run alone, answers and changes log and counters as specified |
| Calendar.OrdinalInjective | app/repos/api_key_repo.py:29-34 | the day number names one date of the Gregorian calendar |
| Calendar.MinuteFloorIsInterval | app/repos/api_key_repo.py:29-30 | two timestamps have the same minute floor exactly when they lie in the same sixty-second interval |
| UsageLedger.UsageConserved | app/repos/api_key_repo.py:136-184 | after every sequence of calls the windows of a day sum to its daily count, the days of a month to its monthly count, and everything to the number of accepted calls |
| UsageLedger.RejectedLeaveNoTrace | app/repos/api_key_repo.py:150-162 | the accepted calls alone give the same ledgers, and are all accepted again |
| UsageLedger.AdmittedIff | app/repos/api_key_repo.py:136-162 | a call is accepted exactly when fewer than the limit were accepted in its minute |
| UsageLedger.DailyBound | app/repos/api_key_repo.py:136-184 | no day counts more than 1440 times the limit |
| UsageLedger.MonthlyBound | app/repos/api_key_repo.py:136-184 | no month counts more than 31 times 1440 times the limit |
| UsageLedger.SlidingBound | app/repos/api_key_repo.py:136-162 | accepted calls with timestamps in any closed span number at most (span / 60 s + 2) times the limit |
| UsageTransactions.UsageSerialisable | app/repos/api_key_repo.py:136-184 | every interleaving of transactions, with rollbacks, commits the tables that its committed calls give one after the other, each of them admitted |
| UsageTransactions.InterleavedUsageConserved | app/repos/api_key_repo.py:136-184 | so windows sum to days, days to months and months to committed calls under every interleaving |
| UsageTransactions.TurnedAwayIff | app/repos/api_key_repo.py:142-162 | a call is turned away exactly when at the moment it counts its minute the limit has been reached by committed calls |
| UsageTransactions.EveryoneCanFinish | app/repos/api_key_repo.py:136-184 | no deadlock among calls that hold the rows they count: after every interleaving the open calls, none rolled back, can all be carried to their end |
| UsageLedger.UsageTables.EnforceRateLimitAndTrack | app/repos/api_key_repo.py:136-184 | the upserts with rollback on excess change the three tables as specified |
| SitemapCrawler.DiscoverRepos | app/ingest/sources.py:294-347 | over any finite link graph the crawl ends, fetches nothing twice and nothing unreachable, fetches exactly min(reachable pages, budget) pages, and with budget left has visited every reachable sitemap and page; the result is the sorted union of the repositories found |
| SitemapCrawler.ScanSitemap | app/ingest/sources.py:318-345 | one sitemap's links are queued, fetched or skipped, within the budget |
| SitemapCrawler.AtTheEnd | app/ingest/sources.py:312-347 | what completeness and soundness of the loop come to when it exits |
| RawQueue.NeverAStaleVerdict | app/ingest/db_upsert.py:38-77 | in every run of upserts, re-queues and batches a row that is processed or failed was judged on its current content, its status says what the judgement says, and (source, external id) and source URLs stay unique |
| RawQueue.ReingestIffChanged | app/ingest/db_upsert.py:56-62 | ingesting an existing row again changes the database exactly when the content differs |
| RawQueue.ReingestIsIdempotent | app/ingest/db_upsert.py:38-77 | ingesting a document twice is ingesting it once |
| RawQueue.RequeueGrows | app/api/admin.py:345-352 | a re-queue adds exactly its rows to the queue and leaves the others as they are |
| RawQueue.InsertFailsIff | app/ingest/db_upsert.py:10-35 | a new source violates the unique URL exactly when it has no URL, a new name, and another source has no URL |
| RawQueue.SecondNamelessSource | app/ingest/db_upsert.py:10-35 | a table and a source for which it does |
| RawQueue.EnsureKeepsSources | app/ingest/db_upsert.py:10-35 | the source found or made bears the name or the URL asked for, is found again, and URLs stay distinct |
| RawQueue.NameIsSettled | app/ingest/db_upsert.py:14-20 | a name some source bears is borne still after another lookup, and resolves as before |
| RawQueue.UnsettledNameMoves | app/ingest/db_upsert.py:14-29 | a name found by its URL alone moves, in every table, to the next source that comes in under it with a URL of its own |
| RawQueue.NeverMovesIff | app/ingest/db_upsert.py:10-35 | over every sequence of further lookups a resolved name stays with its source exactly when some source bears it |
| RawQueue.BatchDrains | app/workers/ingest_and_parse.py:585-592 | a batch takes exactly min(2000, pending) rows out of the queue |
| RawQueue.RawTable.EnsureSource | app/ingest/db_upsert.py:10-35 | lookup by name, then by URL, then insertion, with the failure |
| RawQueue.RawTable.UpsertRawSkill | app/ingest/db_upsert.py:38-77 | the upsert in place is the specified one |
| RawQueue.RawTable.Reparse | app/api/admin.py:345-352 | the queue grows by exactly the selected rows, of which only the status changes; all other rows stay, and the invariant of the queue is kept |
| QueueRace.StaleIffOverlapped | app/workers/ingest_and_parse.py:625-1037 | for every interleaving of one batch and one upsert of a row: the verdict is stale exactly when the content changed and neither transaction had ended when the other read the row |
| QueueRace.OverlapGoesStale | app/workers/ingest_and_parse.py:625-1037 | a finished run, for any two contents, whose verdict is stale |
| QueueRuns.StaleIff | app/workers/ingest_and_parse.py:625-1037 | at every moment of every interleaving of any number of batches, rollbacks, upserts and re-queues of a row: its verdict is stale exactly when a batch has settled it, nothing has queued it since and the last content written is another than the one judged; that happens only when this write and this batch overlapped |
| BatchQuery.OldestPending | app/workers/ingest_and_parse.py:585-592 | the query yields the oldest pending rows, oldest first, at most 2000 |
| Catalogue.RunKeepsUnique | app/workers/ingest_and_parse.py:888-1031 | URLs and slugs stay pairwise distinct over every run, migrations included |
| Catalogue.UpsertFiles | app/workers/ingest_and_parse.py:888-1000 | the document is found under its URL afterwards, and no other row changed |
| Catalogue.RefilingIsInPlace | app/workers/ingest_and_parse.py:888-906 | filing a document again updates the same row under the same slug and adds none; filing it unchanged changes nothing |
| Catalogue.SlugsArePermanent | app/workers/ingest_and_parse.py:900-1000 | no run removes a row or changes a slug |
| Catalogue.RowIsPermanent | app/workers/ingest_and_parse.py:888-900 | a filed document keeps its row over every run that does not migrate it |
| Catalogue.LatestWins | app/workers/ingest_and_parse.py:900-942 | the row of a URL says what the last document filed under it said |
| Catalogue.RunAddsOneRowPerUrl | app/workers/ingest_and_parse.py:888-1000 | without legacy rows a run adds one row for each URL that is new, however often it comes |
| Catalogue.LegacyIsTakenOver | app/workers/ingest_and_parse.py:891-901 | a repository row with the document's name becomes the document's row: same slug, new URL, nothing else changed |
| Catalogue.TakenAreFew | app/workers/ingest_and_parse.py:951-958 | a catalogue of n rows cannot hold n + 1 of the slugs that are tried |
| Catalogue.SlugsAreSafe | app/workers/ingest_and_parse.py:951-958 | every slug ever tried consists of lower-case letters, digits and dashes |
| Catalogue.SkillTable.AllocateSlug | app/workers/ingest_and_parse.py:951-958 | the probe returns the first free name of slug, slug-1, slug-2, … within (rows + 1) queries |
| Catalogue.SkillTable.UpsertSkill | app/workers/ingest_and_parse.py:888-1000 | the upsert in place is the specified one, and reports whether a row was added |
| RepoUrls.RepoPageIsNoDocument | app/workers/ingest_and_parse.py:272-309 | a repository URL is never a canonical document, so no migration ever takes a document's row |
| WorkerGates.DecisionLimits | app/workers/ingest_and_parse.py:718-760 | a critical scan is never overruled, a review of suspicious documents never blocks one that is not, and a block has the scan or a confident review behind it |
| WorkerGates.MergeReviews | app/workers/ingest_and_parse.py:718-760 | the merge of scan and review is the specified decision |
| WorkerGates.RunGates | app/workers/ingest_and_parse.py:631-866 | the sequence of early exits gives the specified verdict |
| WorkerGates.RolloutIsGradual | app/workers/ingest_and_parse.py:832-866 | enforcing strict accepts a subset of enforcing lax, which accepts exactly what is accepted without enforcement; strict alone turns a document away exactly when it reports an error |
| WorkerGates.AcceptedTrust | app/quality/trust_score.py:36-100 | an accepted document without a block scores at least 55 and is never limited; with the gate enforced none carries a block |
| WorkerGates.FilterHidesBlockedOnly | app/api/skills.py:248-254 | the listing's trust filter hides no automatic profile without a block, and a blocked one exactly when its rounded score is below 35 |
| WorkerGates.AcceptedHidden | app/api/skills.py:248-254 | with the gate off, an accepted document is hidden exactly when its block is critical and 0.45 quality + 0.15 freshness is below 20 |
| Worker.AcceptedIsFiled | app/workers/ingest_and_parse.py:625-1031 | every document a batch accepts is in the catalogue after it, under its last version in the batch |
| Worker.AcceptedStaysFiled | app/workers/ingest_and_parse.py:573-1068 | in every run of ingestions, re-queues and batches under changing settings, a document whose last verdict accepted it is in the catalogue |
| Worker.AcceptedIsVisible | app/workers/ingest_and_parse.py:924-940 | with the security gate enforced the row of every accepted document passes the listing's trust filter, unless its trust is overridden |
| Worker.ParseQueuedRawSkills | app/workers/ingest_and_parse.py:573-1068 | a batch settles exactly the oldest min(2000, pending) rows, files what it accepts, and reports processed + errors = drained = batch size |
| Worker.JudgeRow | app/workers/ingest_and_parse.py:625-942 | one row gets its specified outcome and candidate |
| Worker.Drain | app/workers/run_all.py:143-163 | the loop ends after max(1, ceil(n / 2000)) batches with nothing pending, all n rows settled oldest first, the a-th on its current content under the rules of batch a / 2000, and the total n |
| Worker.ReparseChangesIff | app/api/admin.py:306-352 | re-queueing any set of processed rows and draining, whatever else is queued, judges every one of them and leaves it as it was exactly when the rules of its batch uphold its verdict; of the others just the pending ones change |
| EndToEnd.AcceptedIsPublic | app/repos/public_filters.py:11-28 | every accepted document is shown by the listing exactly when its trust passes and its URL is one normalisation knows as a GitHub file with the skills directory at the top of the repository, or under .claude there; with the security gate enforced and no override, its place alone decides |
| EndToEnd.HiddenDocument | app/workers/ingest_and_parse.py:631-680 | a document on another host is accepted under the default settings, and the listing's filter never shows the URL it is filed under |
| DocumentUrls.ShownIff | app/repos/public_filters.py:11-28 | of all URLs the worker takes for documents, spaces and all, the database pattern shows exactly those normalisation knows with the skills directory at the top |
| DocumentUrls.OtherHostsAreHidden | app/workers/ingest_and_parse.py:378-384 | a document on any host that is neither GitHub's nor its raw one is taken and never shown |
| ClaudeSpec.StrictRefinesLax | app/quality/claude_skill_spec.py:138-252 | strict errors and warnings are the lax ones plus at most the unknown-fields warning, and no lax error is lost |
| ClaudeSpec.LaxOk | app/quality/claude_skill_spec.py:145-171 | lax fails only on frontmatter that could not be read as a mapping |
| ClaudeSpec.NormalizationSettles | app/quality/claude_skill_spec.py:192-240 | normalising what was normalised twice changes nothing |
| ClaudeSpec.OnePassSettles | app/quality/claude_skill_spec.py:196-208 | once is enough exactly when both boolean fields are absent or readable |
| ClaudeSpec.StrictNormalizesAlike | app/quality/claude_skill_spec.py:173-176 | strict normalises as lax does, and adds exactly the names of the unknown fields, sorted and without repetition |
| ClaudeSpec.ToolListStable | app/quality/claude_skill_spec.py:99-135 | a normalised tool list normalises to itself |
| ClaudeSpec.NormalizeAllowedTools | app/quality/claude_skill_spec.py:99-135 | the loops give the items in order of first occurrence, and the errors and warnings |
| ClaudeSpec.ValidateFrontmatter | app/quality/claude_skill_spec.py:138-252 | the validator, appending and filling as it goes, gives the specified result, the sorted unknown fields of strict included |
| SkillQuality.ErrorFreeScore | app/quality/skill_quality.py:41-106 | a document without errors scores between 25 and 100 |
| SkillQuality.ErrorFreeScoreIsReached | app/quality/skill_quality.py:41-106 | and some document scores exactly 25 |
| SkillQuality.ValidateSkillMd | app/quality/skill_quality.py:27-106 | the running score is 100 less what the reported errors and warnings cost, clamped |
| TrustScore.UnblockedFloor | app/quality/trust_score.py:36-75 | every profile without a block scores at least 36.25, rounded or not |
| TrustScore.UnblockedFloorIsReached | app/quality/trust_score.py:17-75 | and some profile scores exactly that |
| TrustScore.TrustMonotone | app/quality/trust_score.py:36-98 | rounded score and level rank are monotone in quality, verification, officialness and freshness |
| TrustScore.FreshnessMonotone | app/quality/trust_score.py:17-33 | a later update, or the same one looked at earlier, is never less fresh, and an unknown one is fresher exactly than those over a year old |
| TrustScore.ProfileIsDetermined | app/quality/trust_score.py:77-100 | the signals determine the profile, the order of its flags included |
| TrustScore.ComputeTrustProfile | app/quality/trust_score.py:36-100 | score, level and sorted flags without repetition are the specified ones |
| SkillUrls.NormalizeIdempotent | app/workers/ingest_and_parse.py:329-368 | for every URL that normalises, normalising again changes nothing exactly when the last kept segment has no semicolon and does not end in a space |
| SkillUrls.UnsettledPages | app/workers/ingest_and_parse.py:329-368 | every page whose last segment is not so comes out of a URL and changes when it is normalised again |
| SkillUrls.SecondPassChanges | app/workers/ingest_and_parse.py:329-368 | two such URLs, one with a semicolon and one with a space |
| SkillUrls.RawToPage | app/workers/ingest_and_parse.py:338-344 | a raw URL of a document becomes the page of the same document |
| SkillUrls.PageToRaw | app/workers/ingest_and_parse.py:312-326 | a page becomes its raw URL exactly when no segment mentions the raw host |
| SkillUrls.RawPageRaw | app/workers/ingest_and_parse.py:312-344 | raw to page to raw is the identity exactly when no segment mentions the raw host |
| SkillUrls.PageRawPage | app/workers/ingest_and_parse.py:312-360 | page to raw to page is always the identity |
| PublicFilters.SkillsMeaning | app/repos/public_filters.py:16-19 | the segment form of the first pattern is the textual one: the literal pieces at the end with one segment in each gap |
| PublicFilters.ClaudeMeaning | app/repos/public_filters.py:16-19 | the same for the second pattern |
| PublicFilters.SqlIffRuntime | app/repos/public_filters.py:11-36 | the database pattern implies the runtime one, and says exactly when it does not follow from it |
| PublicFilters.PoliciesAgree | app/repos/public_filters.py:11-36 | they coincide on GitHub pages whose only "blob" segment is the third |
| PublicFilters.StoredIsListed | app/workers/ingest_and_parse.py:378-384 | the database pattern shows exactly the pages the worker takes for documents whose skills directory is at the top or under .claude there and whose last segment has no parameters |
| CacheKey.QuoteReadsBack | app/cache/redis_l2.py:26-30 | percent-encoding (section 2.1 of RFC 3986) of any text is injective and can be told apart from a separator after it |
| CacheKey.KeysAgreeIff | app/cache/redis_l2.py:19-30 | any two requests get the same key exactly when namespace and path, joined by a colon, are the same text and the multisets of query pairs agree |
| CacheKey.KeyIsCanonical | app/cache/redis_l2.py:19-30 | under namespaces of which neither goes on from the other with a colon and a slash, two requests get the same key exactly when namespace, path and the multiset of query pairs agree |
| CacheKey.ColonSlashCollides | app/cache/redis_l2.py:19-30 | every request under a namespace with a slash behind a colon shares its key with the one whose namespace ends at the colon |
| CacheKey.CollideIff | app/cache/redis_l2.py:19-30 | two namespaces share a key exactly when one goes on from the other with a colon and a slash, and without a question mark from there on |
| CacheKey.SlashInNamespaceCollides | app/cache/redis_l2.py:19-30 | two requests that share a key |
| PackId.DecodeEncode | app/api/packs.py:30-41 | decoding undoes encoding exactly on full names without a double underscore whose owner does not end in one |
| PackId.EncodeDecode | app/api/packs.py:30-41 | encoding undoes decoding exactly on accepted identifiers that are stripped and have no slash |
| PackId.DecodedIsFullName | app/api/packs.py:37-41 | what is decoded is always owner/repo |
| PackId.SharedIff | app/api/packs.py:33-34 | another full name has the same identifier exactly when the identifier has two adjacent underscores in another place than the slash's, inside it |
| PackId.SharedIdentifier | app/api/packs.py:33-34 | two names that share an identifier, which decodes to one of them |
| SearchModes.WeightsAreShares | app/api/skills.py:36-93 | accepted weights are non-negative and sum to one |
| SearchModes.RefusedIff | app/api/skills.py:36-93 | weights are refused exactly when there is a text that does not give both sides a weight, every token well formed or a pair of numbers, neither negative and not both zero |
| SearchModes.OnlyProportionCounts | app/api/skills.py:86-93 | scaling both weights changes nothing |
| SearchModes.ParseSearchWeights | app/api/skills.py:36-93 | the loop takes the last weight of each side, or the pair, and refuses in the order of the source |
| Listing.ListingIsDetermined | app/api/skills.py:237-300 | the rows and their order depend on the set of stored rows alone |
| Listing.OrderMeans | app/api/skills.py:280-300 | search results come by combined score, trust rank, trust score, popularity and recency, all descending, then by id; browsing results by the criteria of their sort |
| Listing.ListedOnce | app/api/skills.py:237-300 | the listing holds each selected row exactly once |
| Listing.PagesPartition | app/api/skills.py:302-316 | the announced pages, each from its own query, put together are the listing; all but the last are full, the last is not empty, none follows |
| Listing.FallbackIsKeywordMode | app/api/skills.py:120-182 | a vector or hybrid search without an embedding is refused exactly when it is hybrid and its text for weights does not give both sides a share, and otherwise lists what keyword mode lists |
| Listing.OneWeightIsRefused | app/api/skills.py:36-182 | a hybrid search with a single weight is refused where keyword mode answers |
| Listing.BrowsingIgnoresMode | app/api/skills.py:288-300 | without a query the mode does not matter |
| Listing.MatchIffScored | app/api/skills.py:186-217 | a row matches by keyword exactly when its keyword score is positive |
| Listing.TellingPlaces | app/api/skills.py:210-217 | a row found by name, slug, tag, summary, description or content scores higher than every row found only in a place later in this list |
| Listing.ReasonsMean | app/api/skills.py:96-117 | each reason is given exactly when its text is true, and the two reasons for rows without a match are never given |
| Listing.HybridIsUnion | app/api/skills.py:272-278 | the rows of a hybrid listing are those of the keyword and the vector listing together, and it is as long as the two less the rows they share |
| Listing.PlainMatchIsContainment | app/api/skills.py:186-209 | a query without wildcards matches exactly the texts it occurs in, ignoring case |
| Listing.LiteralIff | app/api/skills.py:186-209 | a query matches exactly the texts it occurs in if and only if it has no percent sign, underscore or backslash |
| Listing.WildcardMatchesMore | app/api/skills.py:186-209 | an underscore matches every text that is not empty |
| Listing.Execute | app/api/skills.py:237-300 | an answer to the statement always exists |
| Listing.ListSkills | app/api/skills.py:149-340 | the request is refused for its weights or answered with its page, reasons and totals |

## Left out

- HTTP, Redis, PostgreSQL, embeddings and the language model: parameters or oracles. The admin's selection of rows to re-queue is any set of processed rows.
- The regular expressions and the YAML of the SKILL.md parser, the security patterns, SHA-1 and number parsing: opaque functions; a document is given as its parsed fields and the lines of its body.
- Database session machinery: transactions are atomic steps (in Events, UsageTransactions, QueueRace and QueueRuns, several), and an exception while parsing a row is taken to come before the catalogue is touched.
- Concurrent ingestion of the same new document, and concurrent batches.
- Floating-point rounding, NaN and infinities: exact reals.
- Letter case beyond ASCII, and URLs whose host the source's parser raises on (unpaired brackets, some characters beyond ASCII).
- Tags, source links, embeddings, summaries, stored frontmatter and verification time of a catalogue row, and its category beyond its number.
- Administrators' creation, deletion and override of skills; the model only respects an override.
- The content delivery and framework caches around the in-process cache, and the base URL taken from the environment (the default is used).
- SwrCache.ServedValue: says nothing of the age of what the HTTP fetch itself returned.
- The stub workers, seed data, monitoring scripts, and the user interface.
