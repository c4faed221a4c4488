# GymDB backend: verified model

A Dafny model of the GymDB backend's catalog index, ingest, rate limiter, live-search session
protocol and scoring pipeline, with proofs of what they promise. `dafny verify dfyconfig.toml`
checks all of it.

The pieces follow the program:

- **IndexProtocol, IndexRuns, IndexQueries, ReadModel, CatalogAnswers, Sorting**: the published
  catalog. A writer replaces the dataset file without a lock; materialisers build an index file
  under a lock file and publish it by rename; query threads reach it through a timed snapshot
  cache and a connection of their own.
  Each file-system, clock or cache access is one step, so any other thread can run in between.
  The queries on the table are compared with the plain scan that the repository ships as
  `NaiveDatasetGymStore`.
- **Deduplication, DuplicateOrigins, DuplicateCredits, TextNormalization, Publication**: ingest.
  The loop over nine spatial buckets, with its nested map and in-place reference lists, is proved
  against a specification that is then shown to refine the quadratic greedy scan; ids, coverage and index
  are then proved to fit the dataset it leads to.
- **RateLimiting, RateLimitBounds**: the sliding window, once as a SQL transaction on a table and
  once as in-memory deques, both against one abstract window, over whole runs with arbitrary store
  failures.
- **LiveSessions**: the session file, the background task with its separate load and write
  steps, concurrent polls, expiry and the clock.
- **Gyms, MatchTiers, Confirmation, Coverage, Scoring**: gym objects that several loops change
  in place, the two ways TomTom and OpenStreetMap data are matched, and the score in whole
  hundredths.
- **Features, Inference, InferenceMeaning**: the rule engine and its report about itself, and what
  each inference and confidence says in plain terms.
- **Enrichment, LiveSearch**: the live search request and the background task that hydrates its
  stored results, confirms, rescores and stores them again, end to end.

State machines are written as a total `Step` on states and events; a theorem about a protocol
speaks of the state after every finite list of events, and an event that is not enabled changes
nothing. Code that changes objects step by step is a method proved against a function, and the
promises are lemmas about that function, down to the raw inputs: which elements, records, tags and
distances lead to which answer, with the constants written out.

Clock readings, store failures, read failures, the order in which SQLite returns rows and the
order in which a dictionary or set is walked are inputs. Haversine distance, the projection to
metres, coordinate formatting, hashing and the character tables of the text functions are
arbitrary functions; where a property needs something of them, it is a named predicate
(`RangeImpliesAdjacent`, `ProjectionIsClose`, `BoxCoversDisc`, `RoundingIsFine`, `Sound`,
`TaxonomyNeedsText`, `NoCollision`, `NeverEmpty`).

Some results are about where the code stops meeting a promise:

- Bucketed deduplication keeps the gyms of the quadratic scan exactly under one geometric condition
  (`Deduplication.RefinementIffGeometryFits`) and credits every duplicate alike exactly under a
  second one (`DuplicateCredits.CreditsAgreeIff`), which points on a line already break
  (`DuplicateCredits.LineIsAmbiguous`).
- Both rate limiters read the clock before they take their lock. If readings run backwards by at
  most d seconds, a limit of 2 or more holds for windows up to d seconds shorter than configured,
  and for no longer ones; a limit of 1 holds for the whole window whatever the clock does
  (`RateLimitBounds.BoundIffCovered`). When the store fails the limit can double
  (`RateLimitBounds.TwiceTheLimitIsReached`); both versions together keep it in exactly the windows
  no longer than the time between their answers (`RateLimitBounds.TogetherIffApart`).
- The plain scan does not sort, so `filter` pages agree with it exactly on datasets that already
  list the matching gyms in rank order (`ReadModel.FilterAgainstNaive`), and it looks for
  inferred values only under `inferred` while the index also accepts `inference`
  (`ReadModel.MatchesAgreeIff`).
- Brand corroboration lowers exactly the scores above 0.68 (`Scoring.CorroborationEffect`), and
  it commutes with confirmation except when both would act
  (`Confirmation.OrderMattersExactlyWhenBothApply`). The match that coverage prefers can score
  lower than another, exactly when only the other one has a link, both lie in one distance band
  and the score is below 1.00 (`Scoring.BetterMatchLowersIff`).
- The texts hashed into ids are distinct on every input exactly when coordinates written alike are
  in range of each other and in adjacent buckets (`Deduplication.PreimagesDistinctIff`).
- `backend/src/gymdb/domain/scoring.py` lists generic names with blanks, which no normalised name
  has (`Scoring.GenericNamesThatCanMatch`).
- A session read that fails transiently is reported as a missing session although the session
  lives on (`LiveSessions.MissingIsFinalIffExpired`).
- The age of an answer is bounded backwards from the moment the query read its clock, but a
  query can answer from a version published after that moment
  (`IndexRuns.StalenessFromStart`): when the dataset is replaced between the `stat` that names the
  index and the read that fills it, the file named after the old version holds the new content
  (`IndexRuns.ReplacedUnderReader`, from every reachable state with a query at that point;
  `IndexRuns.OldNameNewContent`, from the start).
- A crash inside the dataset lock stops indexing for good (`IndexRuns.CrashInsideIsForever`), and
  nothing else does: the lock can be freed again from exactly the reachable states in which no
  thread has died inside it (`IndexRuns.LockFreedIffNotStuck`). Such a crash is possible in the
  very first build (`IndexRuns.CrashInFirstBuild`).
- A session whose task ended without writing shows `enriching` until it expires
  (`LiveSessions.EnrichingIffNothingWritten`).

## Model

| member | source | states |
|---|---|---|
| IndexProtocol.BoundedStaleness | backend/src/gymdb/gyms/store_dataset.py:50-117 | over every interleaving of dataset replacements, materialisers, cleanups, crashes and queries, each answer is the complete table of one dataset version that was current at some instant between (query start - recheck interval) and the answer |
| IndexRuns.StalenessFromStart | backend/src/gymdb/gyms/store_dataset.py:50-117 | counted from the start of the query: the version an answer is drawn from was current within the recheck interval before the query began if and only if it had been published by then, as it has whenever no replacement falls inside the query |
| IndexRuns.ReplacedUnderReader | backend/src/gymdb/infrastructure/datasets/read_model.py:162-183 | from every reachable state with a query between stat and read, and for every new version and delay, the query goes on to publish the new content under the old version's name and, unless it already has a connection to that name, answers from the version published after it began |
| IndexRuns.OldNameNewContent | backend/src/gymdb/infrastructure/datasets/read_model.py:162-183 | an instance from the start, for any two versions: the file named after the old one holds the new content, and a query has answered from a version published after it began |
| IndexProtocol.MutualExclusion | backend/src/gymdb/infrastructure/datasets/read_model.py:95-122 | at most one thread of any process is inside the dataset lock, whatever crashes and timeouts occur |
| IndexProtocol.OnlyTheHolderUnlocks | backend/src/gymdb/infrastructure/datasets/read_model.py:114-122 | if a step makes the lock file of a thread disappear, it is that thread leaving the lock; a thread that timed out, a crash or a cleanup never removes it |
| IndexRuns.CrashInsideIsForever | backend/src/gymdb/infrastructure/datasets/read_model.py:95-122 | a thread that dies inside the lock leaves it taken over every continuation: no materialiser is inside it again and the set of index files never changes |
| IndexRuns.LockFreedIffNotStuck | backend/src/gymdb/infrastructure/datasets/read_model.py:95-122 | from a reachable state some continuation frees the lock if and only if no thread has died inside it |
| IndexRuns.CrashInFirstBuild | backend/src/gymdb/infrastructure/datasets/read_model.py:95-122 | such a crash is reachable: a thread can die while it builds the first index, after which no continuation ever publishes one |
| IndexRuns.WaitersTimeOut | backend/src/gymdb/infrastructure/datasets/read_model.py:107-112 | after such a crash a waiting thread raises exactly when its timeout has passed, and answers nothing |
| IndexProtocol.VisibleIndexIsComplete | backend/src/gymdb/infrastructure/datasets/read_model.py:172-287 | every index visible under its final name is the full row set, ids distinct, of a dataset version at least as new as the one it is named after |
| IndexProtocol.CleanupSparesThePublished | backend/src/gymdb/infrastructure/datasets/read_model.py:84-92 | while a materialiser cleans up, the index it has just published stays visible |
| IndexProtocol.OneRefreshPerProcess | backend/src/gymdb/gyms/store_dataset.py:67-90 | at most one thread of a store process refreshes its snapshot |
| IndexProtocol.QuietBuildPublishes | backend/src/gymdb/infrastructure/datasets/read_model.py:183-280 | progress: a materialiser that found no index and runs undisturbed publishes the whole current dataset under the name it saw |
| IndexRuns.DueQueryAnswers | backend/src/gymdb/gyms/store_dataset.py:50-117 | progress from the first access to the answer: in any reachable state an undisturbed query whose snapshot is due, with both locks free, answers with exactly the current dataset, whether or not it has to build the index |
| IndexRuns.FreshQueryAnswers | backend/src/gymdb/gyms/store_dataset.py:55-57 | an undisturbed query with a fresh snapshot and a visible index answers from it without looking at the dataset |
| IndexQueries.QueryAlone | backend/src/gymdb/gyms/store_dataset.py:50-117 | refinement: from any state with both locks free, a query that runs alone ends, on every branch, with the answer, snapshot, connection and index files of the sequential reading of the code: fresh or stale snapshot, missing, malformed or repetitive dataset, index found or built, connection that fits, does not or is closed |
| IndexQueries.QueryAfterStoreLock | backend/src/gymdb/gyms/store_dataset.py:67-90 | a query that waited for its process's snapshot lock looks at the cache again and takes a snapshot refreshed meanwhile, and otherwise refreshes it itself |
| IndexQueries.StoreWaiterWaits | backend/src/gymdb/gyms/store_dataset.py:67 | while another thread of the process holds the snapshot lock a query neither proceeds nor fails |
| IndexQueries.QueryAfterFileLock | backend/src/gymdb/infrastructure/datasets/read_model.py:172-287 | a query that waited for the dataset lock looks again inside it: it returns an index that turned up meanwhile, builds one otherwise, or raises, and both locks are free afterwards |
| IndexQueries.WaiterAnswers | backend/src/gymdb/infrastructure/datasets/read_model.py:175-181 | two workers after a replacement: the waiter whose index another thread built meanwhile answers with its rows |
| IndexQueries.MaterializationAlone | backend/src/gymdb/infrastructure/datasets/read_model.py:152-287 | a materialisation that runs alone leaves the complete table of the current dataset under its name; a missing dataset, one that does not parse and one that repeats an id leave every file as it was; no lock stays taken |
| IndexQueries.CleanupRemoves | backend/src/gymdb/infrastructure/datasets/read_model.py:84-92 | a cleanup removes exactly the files it lists, apart from the one just published |
| IndexProtocol.AnsweredNearbyIsNaivePage | backend/src/gymdb/gyms/store_dataset.py:182-249 | end to end, with the rows of an answer in any order: if the box covers the disc, a nearby query finds the gyms and distances of a plain scan of that same current version, and its very page when rows come in dataset order or no two gyms in range tie |
| ReadModel.NaiveNearby | backend/scripts/profile_service.py:85-106 | the plain scan returns every matching gym in range, stably sorted by distance |
| ReadModel.ExtractRows | backend/src/gymdb/infrastructure/datasets/read_model.py:239-259 | the loop collects one row per gym with a non-empty id, in dataset order |
| ReadModel.MatchesAgreeIff | backend/scripts/profile_service.py:35-66 | index and plain scan select a gym alike under every filter if and only if its results are stored under `inferred` or not at all; the index also reads `inference` |
| ReadModel.RankingIgnoresScanOrder | backend/src/gymdb/gyms/store_dataset.py:151-180 | filter pages do not depend on the order in which the table is visited |
| ReadModel.RankedIsStrict | backend/src/gymdb/gyms/store_dataset.py:165-172 | the ranking holds exactly the matching rows, each pair in one strict order: the higher confidence first, and among equals the id that comes first in the dictionary, by the first differing character or as a proper prefix |
| CatalogAnswers.FilterFindsIff | backend/src/gymdb/gyms/store_dataset.py:119-180 | a listing by filters holds a gym if and only if the dataset does, with a non-empty id, and every filter that is set finds its value in the record |
| CatalogAnswers.NearbyFindsIff | backend/src/gymdb/gyms/store_dataset.py:182-249 | a listing around a point holds a gym if and only if the dataset does, with an id, the filters that are set find their values, and the gym lies within the box on each axis and within the radius |
| CatalogAnswers.NearbyIsAscending | backend/src/gymdb/gyms/store_dataset.py:245-249 | a listing around a point goes from near to far |
| ReadModel.FilterPagesPartition | backend/src/gymdb/gyms/store_dataset.py:151-180 | the pages of any size, laid end to end, are the ranking: no gap, no repeat |
| ReadModel.HasMoreIsExact | backend/api/routes_v2.py:168-195 | the probe of limit + 1 returns the requested page, and `has_more` is true if and only if some matching gym is on neither this page nor an earlier one |
| ReadModel.NearbyHasMoreIsExact | backend/src/gymdb/gyms/queries.py:33-46 | the same probe on the distance order: the requested page, and `has_more` if and only if this page and the earlier ones do not hold every gym in range |
| ReadModel.FilterAgainstNaive | backend/scripts/profile_service.py:68-83 | index and scan select the same gyms; their pages agree for every limit and offset if and only if the dataset lists the matching gyms in rank order, since the scan does not sort |
| ReadModel.GetByIdIsExact | backend/src/gymdb/gyms/store_dataset.py:251-259 | with distinct ids a lookup yields a gym if and only if the dataset stores it under that non-empty id |
| ReadModel.Nearby | backend/src/gymdb/gyms/store_dataset.py:182-249 | the loop with the heap selection returns the [offset, offset + limit) slice of the stable distance sort of all rows that pass filters, box and radius |
| ReadModel.NearbyIsNaivePage | backend/scripts/profile_service.py:85-106 | if the box covers the disc, a nearby page is that slice of the plain scan, in dataset order or, without ties, in any scan order |
| ReadModel.NearbyAgreesIffBoxCovers | backend/src/gymdb/gyms/store_dataset.py:196-222 | in any row order index and scan find the same distances if and only if the box leaves out no matching gym in range, and where order does not matter they then agree on every page, and only then |
| ReadModel.NearbyDistancesAnyScan | backend/src/gymdb/gyms/store_dataset.py:224-249 | whatever the scan order, ties included, the same gyms are found at the same distance in every position |
| Sorting.SortIsStable | backend/src/gymdb/gyms/store_dataset.py:245-249 | sorting keeps the relative order of elements that compare equal |
| Sorting.SortIgnoresOrder | backend/src/gymdb/gyms/store_dataset.py:165-172 | without ties between different elements the sorted list depends only on what is sorted |
| Sorting.TextLeMeans | backend/src/gymdb/gyms/store_dataset.py:175 | the order of ids is dictionary order: equal, or smaller at the first difference, or a proper prefix |
| Deduplication.Deduplicate | backend/src/gymdb/domain/processing.py:85-131 | the loop that searches nine buckets, appends references in place and keeps the nested bucket map in step with the output list produces fresh, distinct gyms whose values are those of the bucketed algorithm |
| Deduplication.SearchIndex | backend/src/gymdb/domain/processing.py:107-115 | searching the mutable bucket map finds the gym that searching the output list bucket by bucket would find |
| Deduplication.FindNearbyIsExact | backend/src/gymdb/domain/processing.py:107-115 | the nine-bucket search finds a gym of the name in range if and only if one lies in an equal or adjacent bucket |
| Deduplication.BucketedRefinesGreedy | backend/src/gymdb/domain/processing.py:85-131 | if elements in range of each other have adjacent buckets, the loop keeps the same gyms in the same order as the quadratic greedy scan, credits apart |
| Deduplication.RefinementIffGeometryFits | backend/src/gymdb/domain/processing.py:60-131 | the two algorithms keep the same gyms on every input if and only if no two points within the merge distance project into non-adjacent buckets |
| Deduplication.CloseProjectionSuffices | backend/src/gymdb/domain/processing.py:60-73 | the refinement under the hypothesis that points in range differ by at most one bucket width on each projected axis |
| DuplicateCredits.CreditsAgreeIff | backend/src/gymdb/domain/processing.py:107-119 | loop and quadratic scan agree on every input, references included, if and only if points in range have adjacent buckets and no point in range of two that are apart searches the later one first |
| DuplicateCredits.FindNearbyIsFirst | backend/src/gymdb/domain/processing.py:107-115 | the loop credits the mergeable gym whose bucket comes first among the nine keys, and within one bucket the one kept first |
| DuplicateCredits.UncontestedAgrees | backend/src/gymdb/domain/processing.py:107-119 | for one input: equal results, references included, when no element comes in range of two kept gyms of its name |
| Deduplication.RefsAreConserved | backend/src/gymdb/domain/processing.py:117-128 | each gym holds exactly the references of the elements credited to it, in input order |
| Deduplication.RefsBalance | backend/src/gymdb/domain/processing.py:85-131 | all gyms together hold the reference of every valid element once and nothing else |
| Deduplication.CreditIsRight | backend/src/gymdb/domain/processing.py:92-119 | an element is credited to a gym if and only if it has a name and a location, and then to one of its normalised name that is in range or was made from it |
| DuplicateOrigins.MappedElementsArrive | backend/src/gymdb/domain/processing.py:46-131 | on the raw fields: all gyms together hold a reference as often as there are elements with it that have a non-empty name tag and either both own coordinates or both centre coordinates; so every way known by its centre arrives, and nothing else does |
| DuplicateOrigins.EveryGymIsMade | backend/src/gymdb/domain/processing.py:120-130 | every gym has the name, tags and place of one element, its own coordinates when it has both and its centre's otherwise, and lists that element's reference first |
| DuplicateOrigins.EveryElementJoins | backend/src/gymdb/domain/processing.py:92-119 | every such element is listed by a gym of its normalised name that is within 50 metres of it or was made from it |
| DuplicateOrigins.JoinsTheFirst | backend/src/gymdb/domain/processing.py:107-115 | among the gyms an element can join, the loop takes the one in the westernmost column, there in the southernmost bucket, and within it the one kept first; none only if there is none |
| DuplicateOrigins.GymsAreApart | backend/src/gymdb/domain/processing.py:107-130 | two gyms of one name in equal or neighbouring buckets are more than 50 metres apart |
| DuplicateOrigins.BucketHoldsPoint | backend/src/gymdb/domain/processing.py:68-73 | a bucket is the half-open square of 50 metres that holds the projected point |
| Deduplication.KeptGymsAreSeparated | backend/src/gymdb/domain/processing.py:107-130 | two kept gyms of one name in equal or adjacent buckets are farther apart than the merge distance |
| Deduplication.PreimagesAreDistinct | backend/src/gymdb/domain/processing.py:55-57 | for one input, the texts hashed into ids are pairwise distinct when kept gyms whose six-decimal coordinates are equal are in range and in adjacent buckets, as the primary key of the index needs |
| Deduplication.PreimagesDistinctIff | backend/src/gymdb/domain/processing.py:55-57 | the hashed texts are pairwise distinct on every input if and only if coordinates written alike are always in range and in adjacent buckets |
| Publication.PreimageReadsBack | backend/src/gymdb/domain/processing.py:55-57 | cut at its bars the text hashed into an id is the match key, the latitude and the longitude |
| Publication.IngestedRowsAreDistinct | backend/src/gymdb/application/ingest.py:68-93 | an ingested dataset has one row for every gym and the ids of the rows are distinct, as the primary key of the index demands, if equal rounded coordinates imply range and adjacency and the digest is never empty and does not collide on that dataset |
| Publication.IngestedDatasetIsPublished | backend/src/gymdb/application/ingest.py:119-129 | so, under the same conditions on rounding and digest, an undisturbed materialiser publishes every gym of an ingested dataset |
| Publication.DeduplicateAndCompare | backend/src/gymdb/application/ingest.py:21-87 | ingest up to the scores: fresh, distinct gyms with the values deduplication keeps and the id hashed from each; places are compared if and only if there are gyms and a key, and then every provenance is what coverage gives it; without a key a required validation refuses, and otherwise nothing changes |
| Publication.IngestedCoverage | backend/src/gymdb/application/ingest.py:68-87 | on every ingested dataset, under the same conditions, a place's status is decided by what lies within 250 m of it, and each gym ends with the provenance of the place that wins it, or of an unconfirmed gym |
| TextNormalization.NormalizeJoinsWords | backend/src/gymdb/domain/processing.py:23-27 | the regular-expression pipeline yields the words of the lower-cased text joined by single underscores |
| TextNormalization.NormalizeKeepsLetters | backend/src/gymdb/domain/processing.py:23-27 | the result holds the letters a-z and the digits of the lower-cased name, all of them and in order, and besides them only underscores |
| TextNormalization.Idempotent | backend/src/gymdb/domain/processing.py:23-27 | the result is word characters with single underscores strictly inside, and normalising it again changes nothing |
| TextNormalization.FixedPoints | backend/src/gymdb/domain/processing.py:23-27 | normalising leaves a text alone if and only if it has that form |
| TextNormalization.SlugIsNormalize | backend/src/main.py:14-16 | slugify_region_key equals normalize_name on every input, except that an empty result becomes `custom_region` |
| RateLimiting.OpsStateStore.ConsumeRateLimitToken | backend/src/gymdb/infrastructure/ops_state_store.py:114-181 | one delete/count/insert transaction: its decision and the whole table after it are those of the table specification, and an exception leaves the table untouched |
| RateLimiting.FallbackBuckets.ConsumeFallbackToken | backend/src/gymdb/application/live_search_rate_limit.py:36-56 | the pop/append loop decides and leaves the bucket as the deque specification says, and changes no other bucket |
| RateLimiting.StoreMeetsSpecification | backend/src/gymdb/infrastructure/ops_state_store.py:122-178 | the table meets the one-bucket sliding-window specification and a request touches no other key |
| RateLimiting.DequeMeetsSpecification | backend/src/gymdb/application/live_search_rate_limit.py:43-56 | on a bucket in time order the deque meets the same specification: decision, wait and remembered times |
| RateLimiting.WindowBound | backend/src/gymdb/infrastructure/ops_state_store.py:114-181 | over any run with non-decreasing clocks and a limit of at least 1, every half-open window holds at most `limit` requests admitted by the store, at most `limit` by the deques, and so at most 2 * limit however the store fails |
| RateLimitBounds.TwiceTheLimitIsReached | backend/src/gymdb/application/live_search_rate_limit.py:59-84 | both versions together admit 2 * limit requests in one window, for every limit, window and skew of the two clocks |
| RateLimitBounds.TogetherIffApart | backend/src/gymdb/application/live_search_rate_limit.py:59-84 | for every limit, window and skew: over the runs in which requests that different versions answer are at least g apart, both versions together keep every window of length w, up to the configured one, within the limit if and only if w is at most g |
| RateLimitBounds.BoundIffCovered | backend/src/gymdb/infrastructure/ops_state_store.py:119-178 | for each configuration and each version, when clock readings run backwards by at most d: every window of length w is kept within the limit, over all runs and keys, if and only if w is at most window - d, or at most the window when the limit is 1 |
| RateLimitBounds.FifteenSecondsBack | backend/src/gymdb/infrastructure/ops_state_store.py:119-178 | an instance: with limit 2 and a window of ten seconds, readings of 0, 0, 20 and 5 admit three requests in one window |
| RateLimitBounds.RunHolds | backend/src/gymdb/application/live_search_rate_limit.py:41-56 | over any run, in whatever order the clock reads: what a version admitted within the window before the highest reading is still in its bucket |
| RateLimiting.VersionsAgree | backend/src/gymdb/application/live_search_rate_limit.py:59-84 | transaction and deque return identical decisions and retry times on every non-decreasing run |
| RateLimiting.RetryIsExact | backend/src/gymdb/infrastructure/ops_state_store.py:140-160 | a denied caller is told the least whole number of seconds, between 1 and the window, after which a lone retry is admitted: after k seconds it is admitted if and only if k has reached it |
| RateLimiting.OldestIsLeast | backend/src/gymdb/infrastructure/ops_state_store.py:140-160 | whatever order a bucket's rows come in, the wait is counted from the earliest of them |
| RateLimiting.RunRemembers | backend/src/gymdb/infrastructure/ops_state_store.py:122-178 | the invariant of a run: what is stored is the part of the accepted times that can still matter, and accepted times are spaced by the window every `limit` entries |
| LiveSessions.ParseInvertsSerialize | backend/src/gymdb/infrastructure/live_search_sessions.py:114-209 | a written session reads back as itself if and only if its names are non-empty, its revision is not negative and its three timestamps survive isoformat and fromisoformat |
| LiveSessions.RewritingKeepsTheSession | backend/src/gymdb/infrastructure/live_search_sessions.py:16-24 | however a stored file spells its timestamps, writing what was read and reading it again gives the same session |
| LiveSessions.Create | backend/src/gymdb/infrastructure/live_search_sessions.py:64-86 | a created session is revision 0, pending or skipped by whether the cache was fresh, and lives exactly its time to live |
| LiveSessions.CreatedIsServed | backend/src/gymdb/infrastructure/live_search_sessions.py:64-111 | the owner's poll of a new session shows its id, response, status and expiry until the time to live is over; nobody else's poll does, and the first one after it deletes the file |
| LiveSessions.ExpiredIsDeleted | backend/src/gymdb/infrastructure/live_search_sessions.py:89-111 | whoever judges an expired copy deletes the file, unless the deletion fails; an unexpired one stays |
| LiveSessions.RepliesNeverRegress | backend/docs/live_search_contract.md:42-68 | over every interleaving: only the owner is answered, each reply is a documented state with fixed id and expiry and revision 0 or 1, revision never falls, and `ready` never changes again |
| LiveSessions.EveryReplyIsDocumented | backend/docs/live_search_contract.md:42-68 | every single reply goes to the owner and shows a documented state |
| LiveSessions.MissingExactlyWhenExpired | backend/src/gymdb/infrastructure/live_search_sessions.py:89-111 | the owner is told the session is missing if and only if it has expired, unless the read itself failed |
| LiveSessions.ExpiredStaysMissing | backend/api/background_tasks.py:118-181 | once reported missing it stays missing, even if the task rewrites the file after expiry deleted it |
| LiveSessions.MissingIsFinalIffExpired | backend/src/gymdb/infrastructure/live_search_sessions.py:89-111 | a missing reply is final if and only if the session had expired; one caused by a transient read failure is not |
| LiveSessions.FaultedReadIsMissing | backend/src/gymdb/infrastructure/live_search_sessions.py:89-111 | a read that fails is answered as a missing session and changes nothing: the owner's next poll finds it; a poll is answered once |
| LiveSessions.TaskMakesReady | backend/api/background_tasks.py:101-197 | progress: from any reachable state with the task fetching and the session unexpired, an undisturbed task makes the session `ready` at revision 1: completed with the very response that was written, or failed with the first one |
| LiveSessions.ThrowingWriteFails | backend/api/background_tasks.py:173-197 | a write that throws is followed by a second load that records the failure with the first response; if that throws too, the session is left as it was |
| LiveSessions.ReadySessionIsLeft | backend/api/background_tasks.py:101-181 | a task that loads a session which is no longer `enriching` stops and writes nothing |
| LiveSessions.DeadTaskWritesNothing | backend/api/background_tasks.py:101-197 | a task that dies, at whatever point, writes nothing from then on, over every continuation |
| LiveSessions.RepliesShowWhatWasWritten | backend/src/gymdb/infrastructure/live_search_sessions.py:145-170 | over every interleaving, a completed reply shows the response that a write of the run delivered before it was read, a failed one the first response, each dated by the clock at that write |
| LiveSessions.EnrichingIffNothingWritten | backend/api/background_tasks.py:101-197 | once the task is over, on file and in every later reply the session is `enriching` if and only if the task wrote nothing, over every continuation |
| LiveSessions.RunOk | backend/api/background_tasks.py:101-197 | the invariant of every reachable state of file, background task, polls and answers |
| Confirmation.ApplyOsmConfirmation | backend/src/gymdb/application/coverage.py:229-312 | the two nested loops leave every listed gym, even one listed twice, as the specification of a single confirmation says |
| Confirmation.BestIsLexicographic | backend/src/gymdb/application/coverage.py:274-290 | the one-pass choice is the declarative one: an exact name beats any other, then distance, then position; and that choice is unique |
| Confirmation.ConfirmationOutcome | backend/src/gymdb/application/coverage.py:268-306 | a TomTom-only gym becomes confirmed if and only if an element of its name is in range, nearby if and only if only others are, and is otherwise unchanged; primary source and references are kept |
| Confirmation.ConfirmationOnlyAddsTags | backend/src/gymdb/application/coverage.py:308-312 | no existing tag changes; a key is added if and only if it is an enrichment key of the chosen element that the gym lacks, with that value |
| Confirmation.CorroborationOutcome | backend/src/gymdb/application/coverage.py:315-354 | a gym becomes corroborated, confirmed by the brand search, if and only if it is TomTom-only and a brand result lies within 250 m; nothing else about it changes |
| Confirmation.ApplyTomTomBrandCorroboration | backend/src/gymdb/application/coverage.py:315-354 | each TomTom-only gym with a brand result in range becomes corroborated, every other gym is untouched |
| Confirmation.OrderMattersExactlyWhenBothApply | backend/src/gymdb/application/coverage.py:339-342 | confirmation and brand corroboration fail to commute if and only if the gym is TomTom-only and both would act on it |
| Scoring.ComputeConfidence | backend/src/gymdb/domain/scoring.py:176-191 | the accumulating method stores and returns the specified score and changes no other field |
| Scoring.ScoresStayInBand | backend/src/gymdb/domain/scoring.py:153-173 | for all tags: corroborated 0.40-0.68, nearby 0.70-1.00, confirmed 0.85-1.00; inside the band the score is evidence plus boost, outside it is the nearer end |
| Scoring.ContactEvidence | backend/src/gymdb/domain/scoring.py:72-90 | a website is worth 0.22, a phone 0.10, an e-mail 0.06, opening hours 0.12; a phone beside the website 0.05 more and hours beside it 0.03 more |
| Scoring.AddressEvidence | backend/src/gymdb/domain/scoring.py:61-70 | one, two and three filled address parts are worth 0.08, 0.16 and 0.22 |
| Scoring.BrandEvidence | backend/src/gymdb/domain/scoring.py:92-101 | one, two and more filled brand tags are worth 0.08, 0.14 and 0.18 |
| Scoring.MetadataEvidence | backend/src/gymdb/domain/scoring.py:103-106 | every other filled metadata or social tag is worth 0.02, up to 0.10 |
| Scoring.OtherEvidence | backend/src/gymdb/domain/scoring.py:54-117 | a fitness taxonomy is worth 0.10, two and more references 0.12 and 0.18, a telling name 0.08, and the evidence is the sum of its parts |
| Scoring.MatchEvidence | backend/src/gymdb/domain/scoring.py:120-150 | a coverage match is worth 0.12, with 0.06, 0.04 or 0.02 more within 50, 150 or 250 m and 0.02 more for a link; a name mismatch 0.04, no match nothing |
| Scoring.CorroboratedBelowOsm | backend/src/gymdb/domain/scoring.py:153-173 | a corroborated gym always scores below every gym of either OpenStreetMap tier, whatever the evidence |
| Scoring.MergingNeverLowers | backend/src/gymdb/domain/scoring.py:112-117 | crediting a duplicate to a gym never lowers its score |
| Scoring.ConfirmationNeverLowers | backend/src/gymdb/application/coverage.py:294-312 | confirmation never lowers a score |
| Scoring.CorroborationEffect | backend/src/gymdb/domain/provenance.py:35-48 | corroboration lowers exactly the scores of gyms with evidence above 0.68 and raises exactly those with evidence strictly between 0.34 and 0.68 |
| Scoring.BetterMatchLowersIff | backend/src/gymdb/domain/scoring.py:120-150 | a gym carrying the match that coverage prefers scores lower than with the other one if and only if both are matched in the same distance band, only the other has a link, and the evidence is below 1.00 |
| Scoring.GenericNamesThatCanMatch | backend/src/gymdb/domain/scoring.py:11-18 | of the six generic names only the three without a blank can ever match a normalised name |
| Coverage.ApplyTomTomCoverage | backend/src/gymdb/application/coverage.py:177-226 | resets every provenance, compares every place and leaves each gym its id stands for with the best match for that id; nothing else changes |
| Coverage.BestOsmMatch | backend/src/gymdb/application/coverage.py:96-130 | the two passes with best-so-far variables compute the specified comparison |
| Coverage.PassIsExact | backend/src/gymdb/application/coverage.py:107-115 | a pass finds the nearest acceptable gym, the first of equals |
| Coverage.StatusIsExact | backend/src/gymdb/application/coverage.py:96-164 | a place is matched if and only if a gym of its name lies within 250 m, mismatched if and only if only prefix-related names do, missing otherwise |
| Coverage.BestOsmChooses | backend/src/gymdb/application/coverage.py:96-130 | a place chooses the nearest gym of its name within 250 m, and for want of one the nearest whose name begins with its name or the other way round; the first of equals |
| Coverage.ComparisonMeans | backend/src/gymdb/application/coverage.py:118-164 | a comparison reports the place's own data and the name, id and distance of the gym it chooses, or of none |
| Coverage.GymOutcome | backend/src/gymdb/application/coverage.py:177-226 | from places and gyms alone: each gym ends with the provenance of the place that wins it, of its name before others, then the nearest, then the first, or with that of an unconfirmed gym when no place chooses it |
| Coverage.BestForIsExact | backend/src/gymdb/application/coverage.py:70-93 | the folded choice is the best by status rank, then distance, then first seen, and absent if and only if no match carries the id |
| Coverage.EveryGymCarriesItsBest | backend/src/gymdb/application/coverage.py:202-224 | with distinct ids each gym ends with the best of its assigned matches, or the default provenance |
| Coverage.SummaryIsComplete | backend/src/gymdb/application/coverage.py:167-174 | the counts add up to the number of places |
| Coverage.SummaryCounts | backend/src/gymdb/application/coverage.py:167-174 | the summary counts the places with a gym of their name within 250 m as matched, and those with only a related one as mismatched |
| Features.ExtractFeatures | backend/src/gymdb/domain/features.py:25-64 | the scan of the tags computes the specified feature sets in whatever order the dictionary yields them |
| Features.FeaturesMean | backend/src/gymdb/domain/features.py:25-64 | each feature set member by member, from the raw tags: keys that say yes, the kind of leisure, the trimmed parts between semicolons, website, opening hours, hours that read 24/7, brand and name |
| Features.SplitIsExact | backend/src/gymdb/domain/features.py:15-18 | splitting cuts at every separator and nowhere else: no part holds one and the parts glued by it are the whole text |
| Inference.RunInference | backend/src/gymdb/infer/engine.py:32-96 | the engine returns the specified inferences and the confidences of all five fields |
| Inference.TierConfidenceIsExact | backend/src/gymdb/infer/quality.py:185-189 | the tier's confidence is its evidence to the nearest hundredth: no rounding tie can arise and neither bound is ever reached |
| Inference.InferSpecialty | backend/src/gymdb/domain/rules.py:97-112 | the early-return loop picks the first applicable rule, capability before name |
| Inference.ComputePremiumScore | backend/src/gymdb/infer/decisions.py:23-55 | the running score is the weight of the reasons given, capped |
| Inference.DetectContradictions | backend/src/gymdb/infer/quality.py:83-129 | the step-by-step dictionary lists exactly the contradictions of each field, and has no empty entry |
| Inference.InferenceNeverWorsens | backend/src/gymdb/domain/rules.py:71-124 | extending a tag map never lowers premium score or tier, never turns 24/7 or lifter-friendly to false, and only moves the specialty to an earlier rule |
| Inference.TierMeaning | backend/src/gymdb/domain/rules.py:115-124 | premium takes all three amenity groups and a website or opening hours, basic is no group or one alone, mid the rest; the cap of 10 never binds |
| Inference.MissingCapabilityIffNameOnly | backend/src/gymdb/infer/quality.py:83-102 | the missing-capability contradiction is reported if and only if the specialty is non-general and was chosen from the name alone |
| InferenceMeaning.SpecialtyMeans | backend/src/gymdb/domain/rules.py:97-112 | the specialty is the first of the eight, in the documented order, that a tagged capability or the name speaks for, with every capability and keyword written out; general fitness when none does |
| InferenceMeaning.LifterMeans | backend/src/gymdb/domain/rules.py:77-95 | a gym is lifter-friendly if and only if it offers one of five kinds of strength training or its name says barbell, power or strength |
| InferenceMeaning.AlwaysOpenMeans | backend/src/gymdb/domain/rules.py:71-75 | a gym is open around the clock if and only if its opening hours say so, whatever its name says |
| InferenceMeaning.PremiumMeans | backend/src/gymdb/infer/decisions.py:23-55 | the premium score is two for each of three amenity groups and one for each extra; premium takes at least 7 of it, mid at least 3 |
| InferenceMeaning.ContradictionsMean | backend/src/gymdb/infer/quality.py:83-129 | when each contradiction is reported, on capabilities, names and hours |
| InferenceMeaning.HoursConfidence | backend/src/gymdb/infer/quality.py:145-152 | 0.98 for hours around the clock, else 0.84 with and 0.48 without tagged hours, 0.14 lower when the name says more |
| InferenceMeaning.LifterConfidence | backend/src/gymdb/infer/quality.py:154-168 | 0.91 with strength training, 0.49 by name alone, 0.76 beside other sports, 0.62 for a fitness centre, 0.52 otherwise |
| InferenceMeaning.NamedSpecialtyConfidence | backend/src/gymdb/infer/quality.py:170-183 | a specialty by name alone has 0.58, or 0.44 when one of the other two contradictions joins in, or 0.37 when both do |
| InferenceMeaning.PremiumConfidence | backend/src/gymdb/infer/quality.py:140-143 | 0.35, with 0.05 for each point of the score and for each of up to four groups and extras |
| InferenceMeaning.TierConfidenceMeans | backend/src/gymdb/infer/quality.py:185-189 | to the nearest hundredth, 0.32 of the premium confidence on top of 0.56, or of 0.65 around the clock |
| Inference.SpecialtyConfidence | backend/src/gymdb/infer/quality.py:165-183 | capability-backed 0.93, or 0.79 exactly under an activity conflict; name-only 0.58, 0.44 or 0.37; general 0.66 or 0.48 |
| Enrichment.EnrichResults | backend/api/background_tasks.py:152-171 | the task loop yields one enriched result per persisted result, in order, each as specified |
| Enrichment.EnrichedDescribesItself | backend/api/background_tasks.py:152-171 | every enriched result shows the distance of the place it shows, the inferences of its tags and the score that scoring the stored gym gives; place, name and references are those stored before |
| Enrichment.MissingProvenanceReads | backend/api/normalizers.py:72-90 | absent provenance, and absent keys in it, read as those of an unconfirmed gym from OpenStreetMap; present ones stay |
| Enrichment.RoundTripIffStorable | backend/api/normalizers.py:93-145 | storing and reloading keeps every field, up to filled-in provenance keys, if and only if the gym has an id and a match key that is not recomputed |
| Enrichment.EnrichmentCommutesWithPersistence | backend/api/background_tasks.py:152-171 | confirming and rescoring a reloaded gym gives what reloading the confirmed and rescored original gives |
| Enrichment.TaskCommutesWithPersistence | backend/api/background_tasks.py:152-171 | the published result of the task is that of enriching the original gym |
| Enrichment.EnrichmentOnlyImproves | backend/api/background_tasks.py:152-181 | end to end: same id, name, place, references and distance, every tag kept; confidence, premium score and tier no lower; 24/7 and lifter-friendly not lost |
| Enrichment.StatusSettlesOnce | backend/src/gymdb/application/coverage.py:261-354 | over every sequence of confirmations, brand searches, rescorings and reloads, a gym leaves TomTom-only at most once and then status, provenance and tags never change |
| Enrichment.RunsKeepIdentity | backend/api/background_tasks.py:152-171 | no such sequence changes identity, place or references, or changes or removes a tag |
| Enrichment.RunsNeverLowerTheScore | backend/api/background_tasks.py:152-171 | after the brand search no sequence of confirmations, rescorings and reloads lowers the score |
| LiveSearch.Serve | backend/api/routes_v2.py:340-395 | the order of steps of the request: deduplicate, seed, confirm, corroborate, score, filter, sort, cut |
| LiveSearch.NearestAreFound | backend/api/routes_v2.py:382-386 | when a matching gym is cut the list is full, and no gym on it is farther from the search point than the one cut |
| LiveSearch.ServedNearestFirst | backend/api/routes_v2.py:382-395 | the served list is as long as the limit allows and goes from near to far, each entry with its own distance from the search point and the inferences of its tags |
| LiveSearch.FoundMeans | backend/api/routes_v2.py:340-381 | every found gym matches the query and is one of the deduplicated gyms, under the id hashed from it, of TomTom origin in one of the four tiers, with the score of what it shows |
| LiveSearch.MatchedTier | backend/api/routes_v2.py:351-376 | a gym starts confirmed, nearby or corroborated if and only if its surroundings say so; any cached element outranks the brand search |
| LiveSearch.SearchThenEnrichOnlyImproves | backend/api/background_tasks.py:118-181 | from search to enrichment: whatever OpenStreetMap later returns, every found gym stays the same gym and gets no worse |

## Left out

- HTTP routing, authentication, settings, health checks, logging, metrics, job receipts, the region registry, review summaries and embeddings text are not modelled; nor are the web client and the generated SDK.
- The TomTom and Overpass clients and the local element cache are represented by the lists they return; PostGIS is not modelled.
- Trigonometry and floating point: coordinates, distances and clock readings are reals, scores whole hundredths. That the real projection and box satisfy the geometric hypotheses is not claimed; for large longitudes and across the date line they do not.
- Text tables: lower-casing acts character by character, so the one context-dependent case of Unicode lower-casing (final sigma) is not distinguished; both its outcomes are outside the word characters.
- DatasetGymStore and the materialiser are a state machine over threads rather than a class, because what they promise is about interleavings. One region is modelled. The regions of one store also share its snapshot lock, and a cleanup's file pattern would match the index files of a region whose dataset name continues another's after a dot; neither effect is in the model. The manifest file, which no query reads, is omitted.
- File-system failures inside the materialiser's unlinks and a full disk during index building are not events of the index protocol; a thread that fails for any such reason behaves as one that raised or crashed.
- IndexRuns.DueQueryAnswers: claims an answer only for an undisturbed thread with both locks free; what a query does after waiting for either lock is in IndexQueries. A query may fail when its index was cleaned up, and a closed connection left registered under the same path fails again.
- Dataset modification times are taken never to repeat, and the index protocol's clock never to run backwards.
- Sessions: one background task per session, as the route starts it. Two racing writers could change a `ready` session. What a failed write leaves behind is part of the model.
- Query limits and offsets are natural numbers, as the routes enforce.
- Tag values, names and ids are strings; a stored number or boolean where text is expected is not distinguished. In the index a tier or specialty is text or absent.
- Gym objects hold their tags by value: that ingest shares a tag dictionary between an element and its gym is not visible, because nothing reads the element afterwards.
- Inference.RunInference: returns the results instead of assigning them to the gym; the stamped metadata and its hash are left out too.
- Enrichment.EnrichResults: takes the scoring and inference functions by name (`UsesEngine`; such a task exists for every request, `Enrichment.EngineTask`), and stands for the part of the task between loading and replacing the session; those steps are in LiveSessions.
- LiveSearch.Serve: network calls and their timeouts are the absent or present inputs `cached` and `brand`; the query match, which reads names, tags and inferred values, is an arbitrary predicate.
- SHA-256 appears only through the texts that are hashed.
