# Receipt and event ledger: a verified model

The repository keeps an append-only ledger of dispatch receipts and register events. This project
models the code that reads that ledger exactly once, folds it, and projects it into tables without
losing or overwriting anything, and proves what that code promises: for every run, every store and
every interleaving, not for examples.

Code that changes state step by step is a class or a method with loops, proved against a
specification function; the promises are then proved about that function as lemmas. Where a promise
turns out to hold only on a condition, the condition is proved exact, for all inputs and in both
directions, and a small instance that breaks the promise is kept beside it.

## Modules

| file | models |
|---|---|
| `RegisterStream.dfy` | the positional-cursor reader of the dispatch register and its streaming sessions |
| `TimestampWrapper.dfy` | the older, timestamp-shaped reader kept for callers that hold no line index |
| `LinkageBackfill.dfy` | linking merged-PR evidence to tracks: the roadmap map, three tables, one transaction |
| `TtlCache.dfy`, `QueryCache.dfy` | the expiring cache with scored eviction, the query wrapper and the memoised keyword extraction |
| `MetadataBackfill.dfy` | the fail-closed fold of completion receipts, its dry run and its application |
| `ReceiptArchive.dfy` | planning which archived receipts to append, appending them, counting physical lines |
| `DecisionRefNames.dfy`, `DecisionRefBackfill.dfy` | plan-gate report filenames; filling and superseding a track's decision reference |
| `StrategyProjection.dfy` | the stable wave sort, the phase partition and the next actionable wave |
| `SuggestedEdits.dfy` | accept, reject and apply, on the command line and on the dashboard |
| `CiSlugGate.dfy` | the NUL-separated commit log, dispatch-id formats, branch slugs and the gate's verdict |
| `StateMissProbe.dfy` | the reserved-name probe and its termination |
| `Common.dfy`, `Text.dfy`, `Sorting.dfy` | shared datatypes, Python string operations, the stable sort |

`dfyconfig.toml` lists every file, so `dafny verify dfyconfig.toml` checks the project.

## Reading the model

- Python dictionaries are sequences in insertion order, because the loops over them are observable.
  A table is a sequence of rows in scan order; a missing JSON field is `None`.
- Timestamps and file times are integers, since only their order matters; the cache clock and the
  confidence boost are reals, and every operation takes the current time as an argument.
- A cache key is the call it stands for, so the md5 of the arguments is taken to be injective.
- Payload builders, JSON, SHA-1 and edit handlers are functions passed in. What is assumed of them is
  named: `MarkLaw`, `BlankLaw` and `HashLaw` in `ReceiptArchive`, `FillLaw` and `SupersedeLaw` in
  `DecisionRefBackfill`. `Loaded` in `MetadataBackfill` is what the receipt loader guarantees.

## Where the code and its documentation differ

The model follows the code. Each item names the lemma that settles it.

- The timestamp wrapper is documented to avoid the same-timestamp skip. Unfiltered, and chained over
  polls of dated records, it still skips unless each batch leads with a newer record
  (`TimeChainIsExactIff`, `WrapperDropsSameTimestamp`). With a filter it can also deliver a record
  twice, and so it does, filter or not, with a record that has no timestamp (`FilteredRedelivers`,
  `UndatedRedelivers`). For any filter and any dates, a poll is exact if and only if it neither repeats
  nor skips a matching slot (`TimedPollIsExactIff`), and a chain is up to date after every poll if and
  only if every poll is exact (`UpToDateThroughoutIff`). The end result alone says the same when no two
  matching records are equal (`FilteredChainIsExactIff`); otherwise a skip can be made up for by
  repeating an equal record (`SkipCanBeMadeUpFor`).
- The start cursor is documented as the count of records not newer than `since`. It is the longest
  such prefix, and equals the count if and only if no such record follows a newer one (`StartIndexIsCount`,
  `OlderBehindNewer`).
- A record written in two pieces is never delivered if, and only if, its slot was polled in between;
  a torn line completed before the next poll does no harm (`ExactlyOnceIffUnharmed`,
  `TornRecordIsLost`).
- `_evict_lru` is named and documented to evict the least recently used, least valuable entry. It evicts
  the one with the most hits (`EvictsTheMostUsed`). The victim has the lowest boost if and only if all
  boosts are equal (`EvictsLowestBoostIff`), and is the least recently used entry if and only if the
  gets found every entry before that one less often since it was set, and none after it more often
  (`EvictsLeastRecentIff`); with two keys, the one just found again goes (`EvictsTheRecentlyUsed`).
- The size limit holds if and only if `maxsize` is at least one (`MaxsizeIsKeptIff`, `OneSetStores`); every
  cache the file builds has 50 to 200.
- Backfilled event ids join project and dispatch with a dash. Two projects can form the same id, and the
  run of one can make the other's violate the unique key, if and only if one name extends the other by
  a dash (`EventIdsCollideIff`, `ProjectsBlockIff`); among other projects no run is ever blocked
  (`UnrelatedProjectsNeverClash`).
- `track_pr_ref_set` lists tracks whose blank reference was not written (`ReportedIsWritten`,
  `BlankIsReported`).
- A second metadata run leaves the table alone yet counts updates again, for unknown outcomes
  (`UnknownStaysOpen`, `UnknownIsCountedAgain`).
- The archive backfill is meant to be repeatable. Receipts keyed by the SHA-1 fallback are appended
  again unless each of their old keys comes back, because the marker changes the text that is hashed
  (`ReplanIsEmptyIff`, `FallbackIsReplanned`).
- Identifiers without a date are documented to be kept unless their timestamps prove them old. A number
  of fewer than eight digits is compared with the cutoff's first digits instead, and the code follows
  the documented rule for a receipt unless those digits and its timestamps disagree (`AgeRuleIff`,
  `OldShortNumberIsKept`).
- Report names are documented to parse unambiguously for every track id. They do exactly for labels
  that no known label ends in (`RoundTripIff`, `AmbiguousLabelMisreads`), and tiebreak names for
  tracks not ending in a dash (`TiebreakRoundTripIff`, `TrailingDashIsLost`).
- A track with tiebreak reports only, all dated before the epoch, takes the panel path (`TiebreakRule`,
  `PreEpochTiebreakLoses`).
- Planned waves are documented as topologically sorted and completed ones as kept in historical
  order. The first holds if and only if every planned dependency of a planned wave is smaller than it
  by unmet dependencies, phase, number of dependencies and place (`TopologicalIff`, `NotTopological`);
  in particular when every such dependency can start (`ReadyDependenciesAreFirst`). The second holds if
  and only if that measure, place aside, never falls along the completed waves of the file (`HistoryKeptIff`,
  `HistoryIsReordered`).
- With repeated wave ids the first planned wave may be stuck while another is not
  (`DuplicateIdsMislead`). For any ids the first planned wave decides if and only if it is ready, each of
  its dependency ids carried by completed waves only and by one at least, or no wave is
  (`FirstPlannedDecidesIff`). A projection with repeated ids is never written: `validate_roadmap` rejects
  it (scripts/lib/strategy/roadmap.py:416, 453-458).
- An edit already marked applied in the pending list is dropped without being archived
  (`ApplyConservesIff`, `MarkedEditIsDropped`). With duplicate ids the dashboard changes one edit and the command line all
  (`AcceptsAgreeIff`, `RejectsAgreeIff`, `DashboardTakesTheFirst`).
- A legacy dispatch id whose slug begins like a time is not read as legacy (`LegacyIdRoundTripIff`,
  `TimeLikeSlugIsLost`).

## Model

| member | source | states |
|---|---|---|
| RegisterStream.StartIndex | dashboard/api_register_stream.py:37-70 | the start cursor is the length of the longest prefix of record slots with no record newer than `since`; without `since` it is 0 |
| RegisterStream.ResolveStartIndex | dashboard/api_register_stream.py:52-70 | the line loop finds that cursor past blank and malformed lines; a missing or unreadable file gives 0 |
| RegisterStream.SlotsAre | dashboard/api_register_stream.py:94-101 | the slots are the lines that are not blank, in order |
| RegisterStream.DeliverableIs | dashboard/api_register_stream.py:107-116 | of a run of slots the client gets the events of its records, all of them without a filter, with one those whose kind is in it, in order |
| RegisterStream.ReadNewEventsAfter | dashboard/api_register_stream.py:88-118 | one poll returns the records of the kinds asked for in every slot past the cursor, in order, and moves the cursor over all slots, malformed and filtered ones included; a failed read changes nothing |
| RegisterStream.StreamSession.constructor | dashboard/api_register_stream.py:181-181 | a session resolves its cursor once and has sent nothing |
| RegisterStream.StreamSession.Poll | dashboard/api_register_stream.py:185-189 | one turn of the loop appends exactly that poll's batch to what the client received |
| RegisterStream.DeliversFirstSight | dashboard/api_register_stream.py:73-118 | over every run, torn writes included, the client received what each consumed slot held when first read, once and in order, and the cursor is the number of consumed slots |
| RegisterStream.CursorMonotone | dashboard/api_register_stream.py:103-106 | along every run the cursor never falls and nothing sent is revised |
| RegisterStream.WholeLinesAreSeenWhole | dashboard/api_register_stream.py:94-118 | with whole-line appends the first sight of every consumed slot is its final content |
| RegisterStream.ExactlyOnce | dashboard/api_register_stream.py:159-189 | for every interleaving of whole-line appends, polls and failed polls, the batches together are the records of the kinds asked for from the start slot to the cursor, in order, each once, and a successful poll reaches the end |
| RegisterStream.FilterIsKept | dashboard/api_register_stream.py:113-115 | with a filter, over every whole-line run: every event sent has a kind that was asked for, and every record of such a kind from the start slot to the cursor is sent |
| RegisterStream.EveryNewerRecordArrives | dashboard/api_register_stream.py:37-118 | end to end: after any whole-line run ending in a poll, a client that opened with `since` holds the records of the kinds asked for behind its start, in order, and with them every such record dated after `since`, wherever it stands in the register |
| RegisterStream.ExactlyOnceIffUnharmed | dashboard/api_register_stream.py:73-118 | for every run, torn writes included: the client never receives more than the matching records up to the cursor, and exactly those if and only if no torn line is completed, with a record it wants, after its slot was consumed |
| RegisterStream.RunLoses | dashboard/api_register_stream.py:103-114 | over every run a slot is lost exactly when some step completes a wanted record in a slot already consumed |
| RegisterStream.TornRecordIsLost | dashboard/api_register_stream.py:103-114 | a record polled while half written stays undelivered in every continuation |
| RegisterStream.StartIndexIsCount | dashboard/api_register_stream.py:38-46 | the documented count equals the cursor if and only if no already-seen slot follows a newer one |
| RegisterStream.OlderBehindNewer | dashboard/api_register_stream.py:38-46 | an older record behind a newer one is not counted by the cursor |
| TimestampWrapper.ReadNewEvents | dashboard/api_register_stream.py:121-141 | the wrapper returns the records past the resolved cursor and the latest of their timestamps |
| TimestampWrapper.LatestIsMax | dashboard/api_register_stream.py:136-141 | that timestamp is the maximum of the returned ones and `since` |
| TimestampWrapper.TimedPollStep | dashboard/api_register_stream.py:121-141 | unfiltered and over dated records: one wrapper poll returns a suffix of the new batch, all of it exactly when the batch leads with a newer record |
| TimestampWrapper.TimeChainIsExactIff | dashboard/api_register_stream.py:126-133 | unfiltered, chained over any batches of dated records: the wrapper never delivers more than the cursor, and the same sequence if and only if every batch leads with a newer record |
| TimestampWrapper.WrapperDropsSameTimestamp | dashboard/api_register_stream.py:126-133 | the second of two records with one timestamp is dropped |
| TimestampWrapper.TimedPollIsExactIff | dashboard/api_register_stream.py:134-135 | for any filter, dates and `since`: a poll hands over precisely the matching records of the batch if and only if no matching slot of the past stands at or behind its start and none of the batch before it |
| TimestampWrapper.UpToDateThroughoutIff | dashboard/api_register_stream.py:121-141 | for any batches and filter: the client holds what the cursor would have delivered after every poll if and only if, read off the register alone, every poll is exact |
| TimestampWrapper.FilteredChainIsExactIff | dashboard/api_register_stream.py:121-141 | for any batches and filter whose matching records differ from one another: the whole chain delivers the cursor's sequence if and only if, read off the register alone, every poll is exact |
| TimestampWrapper.SkipCanBeMadeUpFor | dashboard/api_register_stream.py:121-141 | with equal records the end result can be right though a poll skipped one and another repeated one |
| TimestampWrapper.FilteredRedelivers | dashboard/api_register_stream.py:136-141 | with a filter a record behind a newer, filtered one is delivered twice, though every batch leads with a newer record |
| TimestampWrapper.UndatedRedelivers | dashboard/api_register_stream.py:136-141 | a record without a timestamp is delivered again by the next poll |
| TimestampWrapper.StartAdvances | dashboard/api_register_stream.py:37-70 | as the register grows and `since` rises, the start never moves back |
| TimestampWrapper.TimeChainStrict | dashboard/api_register_stream.py:121-141 | with strictly increasing timestamps and any filter the wrapper chain delivers exactly what the cursor does |
| LinkageBackfill.LoadPrMap | scripts/backfill_dispatch_track_linkage.py:131-168 | the entry of an id is that of the last feature of the id with an item marked merged, in any letter case, that has a non-empty PR id; it lists the trimmed ids of those items in queue order; an id without such a feature has none, and entries stand in order of first appearance |
| LinkageBackfill.MergedIdsAre | scripts/backfill_dispatch_track_linkage.py:153-162 | a feature contributes the trimmed PR ids of exactly its items with status merged, in any letter case, and a non-empty PR id, in queue order |
| LinkageBackfill.LastMergedIs | scripts/backfill_dispatch_track_linkage.py:144-168 | the last feature of an id with such an item decides the entry |
| LinkageBackfill.FirstSeenIs | scripts/backfill_dispatch_track_linkage.py:163-168 | the map lists the ids with such a feature, each once |
| LinkageBackfill.FirstSeenOrder | scripts/backfill_dispatch_track_linkage.py:163-168 | in the order in which they first have one |
| LinkageBackfill.PrToFeature | scripts/backfill_dispatch_track_linkage.py:171-178 | the inverted map sends each merged PR to the first feature that merged it, and no other |
| LinkageBackfill.OwnerIs | scripts/backfill_dispatch_track_linkage.py:171-178 | the owner of a PR is the feature of the first entry that lists it |
| LinkageBackfill.RowCountIsGain | scripts/backfill_dispatch_track_linkage.py:330-340 | the row count of an UPDATE is what it adds to the number of rows changed since the start, in total and for its feature |
| LinkageBackfill.Connection.RelinkDispatches | scripts/backfill_dispatch_track_linkage.py:329-340 | the PR-by-PR loop is one pointwise map of the table, and both counters equal the rows changed |
| LinkageBackfill.Connection.AddEvidence | scripts/backfill_dispatch_track_linkage.py:343-409 | one feature's step: when it fills the reference, when it adds an event, when the INSERT violates the unique key |
| LinkageBackfill.LinkedIs | scripts/backfill_dispatch_track_linkage.py:353-356 | the linked dispatches of a feature are exactly the project's dispatches on that track, in scan order |
| LinkageBackfill.FeatureSeesOriginal | scripts/backfill_dispatch_track_linkage.py:343-385 | when the loop reaches a feature, its track row, its need for an event and the obstacle to it are as they were before the loop |
| LinkageBackfill.FeatureStep | scripts/backfill_dispatch_track_linkage.py:343-409 | one feature's step takes the tables after k features to those after k + 1 |
| LinkageBackfill.Connection.AddAllEvidence | scripts/backfill_dispatch_track_linkage.py:342-409 | the loop succeeds exactly when no feature is blocked, and then leaves the specified tables and report list |
| LinkageBackfill.EarlierAddsDontMatter | scripts/backfill_dispatch_track_linkage.py:382-409 | events added for earlier features of the run neither satisfy this feature's check nor take its event id |
| LinkageBackfill.Connection.ApplyBackfill | scripts/backfill_dispatch_track_linkage.py:302-411 | the run fails exactly when an event id is taken; otherwise tables and report are those of the pointwise specification |
| LinkageBackfill.Connection.ApplyToLive | scripts/backfill_dispatch_track_linkage.py:577-690 | commits exactly when no id clashes and the integrity check passes, else leaves the tables as they were; when it commits, every track gained, reference filled and event added comes from an item of the roadmap marked merged; the lost-track and row-count branches are never taken |
| LinkageBackfill.BackfillWritesMergedOnly | scripts/backfill_dispatch_track_linkage.py:302-411 | each added event and each newly filled reference names the last merged PR of the feature, read off the roadmap, and a dispatch gains a track only for a PR that track's feature has merged |
| LinkageBackfill.TrackKept | scripts/backfill_dispatch_track_linkage.py:632-641 | re-reading any dispatch that had a track finds that track |
| LinkageBackfill.BackfillIsAdditive | scripts/backfill_dispatch_track_linkage.py:308-317 | no set track, set reference, old event or other project's row changes, and a gained track is the first feature that merged the dispatch's PR |
| LinkageBackfill.EvidenceIsComplete | scripts/backfill_dispatch_track_linkage.py:342-409 | a feature of the map with a track row and a linked dispatch ends with a pr_merged event on one of its dispatches, and with its reference set to its last merged PR if it was NULL or empty |
| LinkageBackfill.AddedIdsDistinct | scripts/backfill_dispatch_track_linkage.py:388-409 | at most one event per feature, with pairwise distinct ids |
| LinkageBackfill.BackfillKeepsValid | scripts/backfill_dispatch_track_linkage.py:302-411 | a completed run keeps the keys of all three tables unique |
| LinkageBackfill.BackfillIsIdempotent | scripts/backfill_dispatch_track_linkage.py:315-317 | a second run, at any later time, changes no table and cannot clash |
| LinkageBackfill.EventIdsCollide | scripts/backfill_dispatch_track_linkage.py:390-390 | two projects can form the same event id |
| LinkageBackfill.EventIdsCollideIff | scripts/backfill_dispatch_track_linkage.py:390-390 | two projects can form the same event id if and only if they are the same or one name extends the other by a dash |
| LinkageBackfill.ClashIsForeign | scripts/backfill_dispatch_track_linkage.py:382-409 | where backfill ids are written by this tool alone, a run is blocked only if some event belongs to another project whose name extends this one's by a dash, or is so extended |
| LinkageBackfill.OneProjectBlocksAnother | scripts/backfill_dispatch_track_linkage.py:388-409 | whenever two dispatches of two projects get the same event id, backfilling one project makes the other's run fail that would have succeeded |
| LinkageBackfill.ProjectsBlockIff | scripts/backfill_dispatch_track_linkage.py:388-409 | for two projects such a database exists if and only if one name extends the other by a dash |
| LinkageBackfill.UnrelatedProjectsNeverClash | scripts/backfill_dispatch_track_linkage.py:302-411 | over every sequence of runs of projects none of whose names extends another by a dash, no run is ever blocked |
| LinkageBackfill.ReportedIsWritten | scripts/backfill_dispatch_track_linkage.py:369-378 | a feature is reported exactly when its reference is NULL or holds blanks only, and reported without effect exactly when the reference is not NULL and not empty (or the representative is empty) |
| LinkageBackfill.BlankIsReported | scripts/backfill_dispatch_track_linkage.py:369-378 | a track with a blank reference is reported as set and left as it was |
| TtlCache.TTLCache.constructor | scripts/cached_intelligence.py:41-51 | an empty cache with zero counters |
| TtlCache.TTLCache.Get | scripts/cached_intelligence.py:53-74 | a miss, an expiry or a hit, with the counters and the entry updated accordingly |
| TtlCache.TTLCache.Set | scripts/cached_intelligence.py:76-87 | makes room if the cache is full, then stores a fresh entry; ttl 0 means the default |
| TtlCache.TTLCache.EvictLru | scripts/cached_intelligence.py:89-100 | the score loop removes the first entry with the most hits |
| TtlCache.TTLCache.ClearExpired | scripts/cached_intelligence.py:102-111 | leaves exactly the unexpired entries, in order, and counts one expiration for each of the others |
| TtlCache.DeletingExpired | scripts/cached_intelligence.py:105-111 | deleting the collected keys one by one leaves the unexpired entries |
| TtlCache.DeleteOne | scripts/cached_intelligence.py:109-110 | one deletion by key drops exactly that key's entry and keeps every other key |
| TtlCache.BoostIsCappedPower | scripts/cached_intelligence.py:71-71 | the boost after h hits is min(1.05^h, 2) |
| TtlCache.BoostOfEntry | scripts/cached_intelligence.py:69-72 | in every run every entry's boost is min(1.05^hits, 2) |
| TtlCache.ScoreFallsWithAHit | scripts/cached_intelligence.py:95-98 | the score strictly falls with every hit, below the cap and above it |
| TtlCache.ScoreOrder | scripts/cached_intelligence.py:95-98 | of two entries the one with the lower score is the one with more hits |
| TtlCache.EvictsTheMostUsed | scripts/cached_intelligence.py:89-100 | in every run the entry with the lowest score is the most used one, and it is what an eviction removes |
| TtlCache.HitsAreUses | scripts/cached_intelligence.py:69-87 | in every run each live entry's hits are the gets that found it since it was last set |
| TtlCache.EvictsLowestBoostIff | scripts/cached_intelligence.py:94-98 | in every run the victim carries the lowest boost if and only if all entries carry the same |
| TtlCache.EvictsLeastRecentIff | scripts/cached_intelligence.py:89-100 | in every run there is a least recently used entry, and it is the one evicted if and only if every entry before it was found by fewer gets since it was set and none after it by more |
| TtlCache.EvictsTheRecentlyUsed | scripts/cached_intelligence.py:89-100 | of two keys the one just found again is evicted, with the higher boost |
| TtlCache.MostHit | scripts/cached_intelligence.py:95-98 | the victim has the most hits, and is the oldest such key |
| TtlCache.RunInv | scripts/cached_intelligence.py:53-111 | in every run keys are distinct and boosts match the hit counts |
| TtlCache.SizeIsBounded | scripts/cached_intelligence.py:78-80 | in every run the size is at most maxsize, or one if maxsize is not positive |
| TtlCache.MaxsizeIsKeptIff | scripts/cached_intelligence.py:76-87 | every run keeps to maxsize if and only if maxsize is at least one |
| TtlCache.OneSetStores | scripts/cached_intelligence.py:78-87 | one set into an empty cache stores an entry, whatever the limit |
| TtlCache.RunIsTraced | scripts/cached_intelligence.py:53-111 | in every run each live entry is what the last set of its key stored |
| TtlCache.GetIsSafe | scripts/cached_intelligence.py:53-74 | in every run a get returns nothing or the value of the last set of that key, and that only while its age is within its ttl |
| TtlCache.SetThenGet | scripts/cached_intelligence.py:53-87 | a value just stored is found until its ttl, or the default if none or 0 was given, has passed |
| TtlCache.CountersConserve | scripts/cached_intelligence.py:46-111 | in every run hits = gets that returned a value, misses = the other gets, evictions = those that took place, and sets = live + evicted + expired + overwritten |
| QueryCache.AdaptiveTtl | scripts/cached_intelligence.py:198-201 | the adaptive ttl lies between 300 and 900 |
| QueryCache.CachedIntelligence.CachedQuery | scripts/cached_intelligence.py:179-203 | a hit is returned as stored, a miss is computed, and stored only if it is a fast result |
| QueryCache.HistoryStep | scripts/cached_intelligence.py:179-203 | the history of wrapped calls is the sequence of cache operations the wrapper performs |
| QueryCache.SetSource | scripts/cached_intelligence.py:186-201 | every stored value was put there by a wrapped call of the same function on the same arguments |
| QueryCache.AnswerHasSource | scripts/cached_intelligence.py:175-205 | in every run a value the wrapper returns was computed now, or by an earlier call of the same function on the same arguments whose result still serves |
| QueryCache.AskedAgain | scripts/cached_intelligence.py:179-205 | after any history: a call missed and then repeated is answered with the stored result for 900 seconds if it took under 100 ms, 600 if under 200, 300 if under 500, and is computed anew if it was slower, returned nothing, or is older |
| QueryCache.KeywordExtractor.ExtractKeywords | scripts/cached_intelligence.py:389-405 | returns the uncached keywords and keeps the memo true; an empty cached list is recomputed |
| QueryCache.KeywordExtractor.FindKeywords | scripts/cached_intelligence.py:397-405 | the words in order without stop words and short words, at most twenty |
| QueryCache.KeywordsAre | scripts/cached_intelligence.py:399-405 | the keywords are the first twenty words of more than two letters that are no stop words, in order, repetitions kept |
| QueryCache.MemoSurvives | scripts/cached_intelligence.py:389-405 | no cache operation makes a memo entry wrong |
| QueryCache.MemoisationIsTransparent | scripts/cached_intelligence.py:389-405 | in every run of extractions, expiries and evictions, extract_keywords returns what the uncached computation returns |
| MetadataBackfill.TokenIsDiscrete | scripts/backfill_dispatch_metadata.py:80-85 | a word is among the split tokens exactly when it stands between separators or ends and holds no separator |
| MetadataBackfill.StatusIs | scripts/backfill_dispatch_metadata.py:66-89 | a status is a failure exactly when it is a listed failure, or is no listed success and holds a failure word as a discrete token, and a success exactly when it is a listed one; a missing status is unknown |
| MetadataBackfill.BestReceiptPerDispatch | scripts/backfill_dispatch_metadata.py:188-221 | the loop computes the fold, one pick per dispatch in order of first receipt |
| MetadataBackfill.BestIsOptimal | scripts/backfill_dispatch_metadata.py:193-219 | each pick is the first lexicographic optimum of its dispatch (worse outcome, then later timestamp), and every dispatch has one |
| MetadataBackfill.FailClosed | scripts/backfill_dispatch_metadata.py:193-198 | the chosen outcome is failure exactly when some receipt is one, and success exactly when all are |
| MetadataBackfill.FoldIsOrderIndependent | scripts/backfill_dispatch_metadata.py:202-221 | neither outcome nor timestamp of a pick depends on the order of the receipts |
| MetadataBackfill.DispatchMetadata.Snapshot | scripts/backfill_dispatch_metadata.py:151-185 | the two id sets hold the dispatches with a row, and with an open row, in scope |
| MetadataBackfill.DispatchMetadata.Analyse | scripts/backfill_dispatch_metadata.py:224-268 | the dry run announces each dispatch's action and the counts, and changes nothing |
| MetadataBackfill.DispatchMetadata.ApplyBackfill | scripts/backfill_dispatch_metadata.py:271-382 | the loop's table and counts are those of one pointwise fill plus the new rows |
| MetadataBackfill.DispatchMetadata.ApplyPick | scripts/backfill_dispatch_metadata.py:297-379 | one dispatch's insert, update or skip |
| MetadataBackfill.ApplyStep | scripts/backfill_dispatch_metadata.py:289-379 | the snapshot taken before the loop is still right about every dispatch when the loop reaches it, so no INSERT is ignored and no UPDATE misses |
| MetadataBackfill.RunIsAdditive | scripts/backfill_dispatch_metadata.py:341-343 | no row with an outcome, of another project, or without a receipt changes, and no row loses its dispatch, project, terminal, track or time of dispatch |
| MetadataBackfill.DryRunIsFaithful | scripts/backfill_dispatch_metadata.py:229-229 | on every table the announced insert and update counts are the applied ones, and the table grows by the announced inserts |
| MetadataBackfill.RunCovers | scripts/backfill_dispatch_metadata.py:289-339 | after a run every dispatch with a receipt has a row |
| MetadataBackfill.RunIsIdempotent | scripts/backfill_dispatch_metadata.py:271-382 | a second application of the same receipts leaves the table as the first left it |
| MetadataBackfill.TableIsFailClosed | scripts/backfill_dispatch_metadata.py:193-376 | every row a run filled or inserted says failure exactly when some receipt of its dispatch failed, success exactly when all succeeded, and else nothing |
| MetadataBackfill.OpenRowIsFilledFrom | scripts/backfill_dispatch_metadata.py:341-376 | every open row in scope whose dispatch has a receipt takes outcome, report path and time from the first of the latest of its worst receipts |
| MetadataBackfill.NewRowIsFilledFrom | scripts/backfill_dispatch_metadata.py:289-339 | so does every inserted row, which takes terminal and track from it too, "unknown" where missing, and the project and time of the run |
| MetadataBackfill.UnknownStaysOpen | scripts/backfill_dispatch_metadata.py:341-376 | the second run counts an update for exactly the dispatches that were absent or open and whose chosen outcome is unknown |
| MetadataBackfill.UnknownIsCountedAgain | scripts/backfill_dispatch_metadata.py:297-376 | a receipt of unknown outcome is counted as an insert, and by the next run as an update |
| ReceiptArchive.LinesCounted | scripts/backfill_wt_receipts.py:164-174 | newlines, plus one for an unterminated end, is the number of physical lines |
| ReceiptArchive.LineCount | scripts/backfill_wt_receipts.py:164-174 | the chunked loop returns that number however the file is cut into chunks |
| ReceiptArchive.AppendedLines | scripts/backfill_wt_receipts.py:216-224 | appending adds exactly the given lines, with or without a final newline before |
| ReceiptArchive.ParseLedger | scripts/backfill_wt_receipts.py:84-108 | every physical line is a receipt, blank or unparseable, and the receipts keep their order |
| ReceiptArchive.KeyIs | scripts/backfill_wt_receipts.py:67-81 | the key of a receipt is its first non-empty identifier of dispatch_id, cmd_id, trace_token and task_id, else the hash of the raw line |
| ReceiptArchive.BuildPlan | scripts/backfill_wt_receipts.py:132-161 | lists each key once that no central receipt has and that some archived receipt has and counts as new by its date, and plans exactly the archive lines of those keys, in archive order |
| ReceiptArchive.DateOfTimestamp | scripts/backfill_wt_receipts.py:111-115 | a timestamp YYYY-MM-DD, whatever follows, gives the date YYYYMMDD |
| ReceiptArchive.NoTimestampNoDate | scripts/backfill_wt_receipts.py:111-115 | a receipt without a timestamp has no date |
| ReceiptArchive.WantedIff | scripts/backfill_wt_receipts.py:118-154 | a receipt counts as new exactly when its identifier's leading digits, as a number, exceed those of 20260515, or, with an identifier of another form or none, some receipt of its key has no date or one that is a greater number |
| ReceiptArchive.PlanIs | scripts/backfill_wt_receipts.py:132-161 | every plan selects exactly the keys with such a receipt that central lacks |
| ReceiptArchive.PlanHoldsWholeGroups | scripts/backfill_wt_receipts.py:136-161 | the plan holds every archive line of a selected key, no other line, and no key central has |
| ReceiptArchive.ChosenInOrder | scripts/backfill_wt_receipts.py:158-160 | the planned lines are exactly the archive lines of the selected keys, each as often and in the order of the archive |
| ReceiptArchive.ShortNumbersAreDates | scripts/backfill_wt_receipts.py:144-154 | a numeric identifier of fewer than eight digits counts as new exactly when, as a number, it is above as many digits of the cutoff, whatever its timestamps |
| ReceiptArchive.AgeRuleIff | scripts/backfill_wt_receipts.py:118-154 | for every receipt: the code follows the documented rule (a date identifier goes by its date, any other is kept unless every receipt of its key is dated no later than the cutoff, dates compared as numbers) unless the identifier is a short number whose digits and timestamps disagree |
| ReceiptArchive.OldShortNumberIsKept | scripts/backfill_wt_receipts.py:118-154 | the identifier "3" counts as new though its timestamp proves it old |
| ReceiptArchive.CentralLedger.ApplyPlan | scripts/backfill_wt_receipts.py:197-241 | the line-count check after the append never fails, no line is verbatim, and a refusal leaves the file as it was |
| ReceiptArchive.CentralLedger.AppendRendered | scripts/backfill_wt_receipts.py:221-225 | the write loop appends each planned line, marked, with its newline |
| ReceiptArchive.MarkedLineKey | scripts/backfill_wt_receipts.py:67-81 | an appended line is found again under its identifier, or under the hash of its marked text |
| ReceiptArchive.AppendedReceipts | scripts/backfill_wt_receipts.py:185-225 | read back after the append, central is what it was, followed by every planned receipt in plan order with all its fields and the provenance marker |
| ReceiptArchive.CentralKeysAfter | scripts/backfill_wt_receipts.py:185-225 | after the append central has its old keys and the keys of the marked lines, no other |
| ReceiptArchive.ReplanSelects | scripts/backfill_wt_receipts.py:132-161 | for any two files, a second plan selects exactly the keys of the first that do not come back from central |
| ReceiptArchive.IdentifiersAreNotReplanned | scripts/backfill_wt_receipts.py:67-81 | for any two files, no receipt with an identifier is planned twice |
| ReceiptArchive.ReplanIsEmptyIff | scripts/backfill_wt_receipts.py:67-72 | for any two files, a second plan is empty if and only if every appended fallback line comes back under its old hash |
| ReceiptArchive.FallbackIsReplanned | scripts/backfill_wt_receipts.py:67-72 | every undated receipt without an identifier that marking changes, alone in the archive, is planned twice |
| ReceiptArchive.FallbackLinesExist | scripts/backfill_wt_receipts.py:185-194 | the laws assumed of JSON and SHA-1 leave room for such a receipt |
| DecisionRefNames.ParseReportFilename | scripts/backfill_track_decision_ref.py:123-161 | the stem-reassigning loop takes the hash, then the first matching label, then a non-empty track |
| DecisionRefNames.ParsedNameIs | scripts/backfill_track_decision_ref.py:123-161 | only report names parse: prefix, non-empty track, dash, the first known label that fits, dashes if any, eight hexadecimal digits, with the extension or without |
| DecisionRefNames.ParsedTiebreakIs | scripts/backfill_track_decision_ref.py:200-223 | likewise for tiebreak names, which carry no label |
| DecisionRefNames.HashIff | scripts/backfill_track_decision_ref.py:72-72 | a hash is eight of the characters 0 to 9 and a to f |
| DecisionRefNames.RoundTripsIfUnambiguous | scripts/backfill_track_decision_ref.py:124-130 | any non-empty track, dashes and label-shaped tails included, comes back when no known label ends in a dash and the true label |
| DecisionRefNames.AmbiguousLabelMisreads | scripts/backfill_track_decision_ref.py:148-160 | otherwise some track is misread |
| DecisionRefNames.RoundTripIff | scripts/backfill_track_decision_ref.py:124-130 | every non-empty track round-trips if and only if the label is clean and no known label ends in a dash and it |
| DecisionRefNames.ParsedLabelIsClean | scripts/backfill_track_decision_ref.py:144-160 | no parsed label is empty or ends in a dash |
| DecisionRefNames.TiebreakRoundTripIff | scripts/backfill_track_decision_ref.py:200-223 | a tiebreak name round-trips if and only if its track is non-empty and does not end in a dash |
| DecisionRefNames.TrailingDashIsLost | scripts/backfill_track_decision_ref.py:220-223 | a dash at the end of a track is lost |
| DecisionRefBackfill.LatestPerLabel | scripts/backfill_track_decision_ref.py:250-262 | the dict loop and the sort compute the latest report per seat |
| DecisionRefBackfill.LatestPerSeatIs | scripts/backfill_track_decision_ref.py:250-262 | one report for every seat, the first of its youngest, the labels strictly ascending |
| DecisionRefBackfill.TiebreakRule | scripts/backfill_track_decision_ref.py:440-453 | the code follows the documented rule (some tiebreak strictly younger than every panel report) unless there is no panel report and every tiebreak is dated before the epoch |
| DecisionRefBackfill.PreEpochTiebreakLoses | scripts/backfill_track_decision_ref.py:449-453 | a track whose only report is a tiebreak dated before the epoch takes the panel path |
| DecisionRefBackfill.TrackIdsAre | scripts/backfill_track_decision_ref.py:595-605 | the run visits each track with a report once, in strictly ascending order |
| DecisionRefBackfill.PanelOfIs | scripts/backfill_track_decision_ref.py:596-599 | a track's panel reports are exactly those of the file list with that track, each as often and in the same order |
| DecisionRefBackfill.TiebreaksOfIs | scripts/backfill_track_decision_ref.py:601-604 | the same for its tiebreak reports |
| DecisionRefBackfill.YoungestIs | scripts/backfill_track_decision_ref.py:450-450 | the tiebreak report used is the first of the youngest of that track in the whole file list |
| DecisionRefBackfill.LatestIs | scripts/backfill_track_decision_ref.py:636-638 | the panel builder is given one latest report for every seat of that track's reports, the seats ascending |
| DecisionRefBackfill.WinsIff | scripts/backfill_track_decision_ref.py:625-628 | the tiebreak path is taken exactly when some tiebreak report of the track is younger than each of its panel reports, or than -1 if it has none |
| DecisionRefBackfill.DecideIs | scripts/backfill_track_decision_ref.py:606-657 | each decision follows from whether the track exists, whether its reference is set, and what the builder yields on the track's own reports |
| DecisionRefBackfill.YieldsOne | scripts/backfill_track_decision_ref.py:628-648 | those reports determine what the builder yields |
| DecisionRefBackfill.TrackStore.HandleTrack | scripts/backfill_track_decision_ref.py:606-657 | one track's decision, read off the store and the track's own reports, and the write that follows from it |
| DecisionRefBackfill.TrackStore.HandleTracks | scripts/backfill_track_decision_ref.py:605-659 | the loop's store, and the report of the tracks handled up to a missing column, which is reported too, or an uncaught exception |
| DecisionRefBackfill.TrackStore.ApplyBackfill | scripts/backfill_track_decision_ref.py:558-659 | the run over all tracks with reports: store and report, complete or cut short; every reference is as it was, or was empty and took the payload the builder yields on that track's own reports |
| DecisionRefBackfill.FillsOnlyEmpty | scripts/backfill_track_decision_ref.py:566-570 | only empty references of tracks with reports change, each to what the builder yields for the first youngest tiebreak report of the track and its panel reports, or for its latest panel report of each seat |
| DecisionRefBackfill.FillsEveryEmpty | scripts/backfill_track_decision_ref.py:605-657 | a run that is not cut short fills every empty track with reports with what the builder yields on its own reports, unless that is no payload, and then leaves it |
| DecisionRefBackfill.SecondRunWritesNothing | scripts/backfill_track_decision_ref.py:566-570 | a second run, at any set_at, leaves every track as the first left it, cut short or not |
| DecisionRefBackfill.ReportPartitions | scripts/backfill_track_decision_ref.py:572-579 | every track a report covers is counted once, as orphan, filled before, filled now or failed |
| DecisionRefBackfill.CoveredTracksPartition | scripts/backfill_track_decision_ref.py:605-659 | the report of any run, cut short or not, partitions the tracks it covers |
| DecisionRefBackfill.TrackStore.ComputeSupersede | scripts/backfill_track_decision_ref.py:506-550 | the early returns in order; a payload is proposed exactly when the track is filled and its youngest tiebreak report beats its panel reports and the set_at, and it is that report's payload |
| DecisionRefBackfill.SupersedesIff | scripts/backfill_track_decision_ref.py:494-550 | a text replaces the reference if and only if the track is filled, some tiebreak report of it is younger than all its panel reports, and the builder yields the text for the first youngest tiebreak report, which is younger than the set_at |
| DecisionRefBackfill.TrackStore.ApplySupersede | scripts/backfill_track_decision_ref.py:782-798 | writes the named track exactly when some payload replaces its reference, and then that payload |
| DecisionRefBackfill.SupersedeTouchesOne | scripts/backfill_track_decision_ref.py:494-505 | over any number of calls only the named track changes, and never from empty |
| DecisionRefBackfill.SupersededAgainIff | scripts/backfill_track_decision_ref.py:527-541 | after a supersede the next call supersedes again if and only if the track's youngest tiebreak report is younger than the set_at just written |
| DecisionRefBackfill.SupersededIsFinal | scripts/backfill_track_decision_ref.py:535-541 | with a set_at no earlier than the report, every later call leaves the store alone |
| StrategyProjection.BuildWaves | scripts/build_strategy_projection.py:193-263 | one wave per feature with an id, in order, and exactly the phases that occur |
| StrategyProjection.WavesAre | scripts/build_strategy_projection.py:193-263 | the waves are those of the features with an id, in order |
| StrategyProjection.WaveIs | scripts/build_strategy_projection.py:145-160 | a wave keeps the id and the non-empty dependencies in order, is completed exactly for done, shipped-dark and merged, and lies in phase 1 to 4 exactly for the four known milestones |
| StrategyProjection.StatusOfIs | scripts/build_strategy_projection.py:283-283 | the last wave of an id decides the status the sort reads for it |
| StrategyProjection.UnmetIs | scripts/build_strategy_projection.py:300-303 | the unmet dependencies are those whose last wave is missing or not completed, counted as often as listed |
| StrategyProjection.HistoryIs | scripts/build_strategy_projection.py:319-329 | the history names exactly the ids of features marked done, shipped-dark or merged |
| StrategyProjection.BuildProjection | scripts/build_strategy_projection.py:186-331 | the waves are the sorted ones, the phases those of the sorted list, the history its completed ids |
| StrategyProjection.SortedIsStableSort | scripts/build_strategy_projection.py:285-306 | the projected list is a permutation, ordered by the key, with equal keys in file order |
| StrategyProjection.SortedPlaces | scripts/build_strategy_projection.py:306-306 | of any two waves, which comes first: by key, and by place in the file when the keys are equal |
| Sorting.SortKeepsClassIff | scripts/build_strategy_projection.py:306-306 | a stable sort leaves the members of any class in their order if and only if no member is less than an earlier one |
| StrategyProjection.SortedIsInBands | scripts/build_strategy_projection.py:288-299 | completed waves come first, then planned ones, then the rest |
| StrategyProjection.FirstPlannedIsNext | scripts/lib/strategy/roadmap.py:519-537 | where waves sharing an id are completed together or not at all, as with unique ids, the first planned wave is actionable exactly when some planned wave is, is then the one returned, and has the least key of all actionable ones |
| StrategyProjection.CompletedAfterSortIff | scripts/build_strategy_projection.py:283-306 | for any ids, an id counts as completed in the projection if and only if some wave of the file carries it and all that do are completed |
| StrategyProjection.FirstPlannedDecidesIff | scripts/lib/strategy/roadmap.py:519-537 | for any ids, the first planned wave is actionable exactly when some wave is, if and only if it is ready in the file or no wave is |
| StrategyProjection.ReadyWavesSurface | scripts/build_strategy_projection.py:276-304 | a wave that can start precedes every planned wave that cannot; of two that can, the earlier phase comes first, then fewer dependencies, then file order |
| StrategyProjection.DuplicateIdsMislead | scripts/build_strategy_projection.py:283-306 | with a repeated id the first planned wave can be stuck while another is actionable |
| StrategyProjection.TopologicalIff | scripts/build_strategy_projection.py:288-293 | with unique ids, every planned wave follows the planned waves it depends on if and only if each such dependency is smaller by unmet dependencies, then phase, number of dependencies and place in the file |
| StrategyProjection.ReadyDependenciesAreFirst | scripts/build_strategy_projection.py:276-304 | if every planned dependency of a planned wave can start, planned waves are topologically sorted whatever their phases |
| StrategyProjection.HistoryKeptIff | scripts/build_strategy_projection.py:288-306 | completed waves keep their file order if and only if unmet dependencies, then phases, then numbers of dependencies never fall along them; ids may repeat |
| StrategyProjection.ClosedHistoryKeptIff | scripts/build_strategy_projection.py:288-306 | where completed waves have completed dependencies only, that comes to phases and numbers of dependencies |
| StrategyProjection.NotTopological | scripts/build_strategy_projection.py:288-293 | a planned wave can precede the wave it depends on |
| StrategyProjection.HistoryIsReordered | scripts/build_strategy_projection.py:288-288 | completed waves do not keep their file order |
| StrategyProjection.BuildPhases | scripts/build_strategy_projection.py:309-316 | ascending phases, exactly those that occur, each with its waves in list order |
| StrategyProjection.PhasesPartition | scripts/build_strategy_projection.py:309-316 | with unique ids each wave is listed under its own phase and no other |
| StrategyProjection.BuildHistory | scripts/build_strategy_projection.py:319-329 | the ids of the completed waves, in list order |
| StrategyProjection.HistoryIsPrefix | scripts/build_strategy_projection.py:319-329 | the completed history is a prefix of the projected list |
| SuggestedEdits.EditStore.CmdAccept | scripts/apply_suggested_edits.py:260-283 | accepts every pending edit of the given ids, reports their ids, and does nothing without ids |
| SuggestedEdits.EditStore.CmdReject | scripts/apply_suggested_edits.py:286-311 | rejects every pending or accepted edit of the given ids |
| SuggestedEdits.EditStore.CmdApply | scripts/apply_suggested_edits.py:422-473 | archives the accepted edits whose handler succeeds, keeps the others, and fails exactly when a handler did |
| SuggestedEdits.EditStore.RunHandlers | scripts/apply_suggested_edits.py:433-464 | marks exactly the accepted edits whose handler succeeds, and archives them in order |
| SuggestedEdits.EditStore.AcceptProposal | dashboard/api_intelligence.py:649-663 | accepts the first pending edit of the id, 404 when there is none |
| SuggestedEdits.EditStore.RejectProposal | dashboard/api_intelligence.py:679-695 | rejects the first pending or accepted edit of the id, 404 when there is none |
| SuggestedEdits.ApplyConservesIff | scripts/apply_suggested_edits.py:428-469 | an apply conserves the ids if and only if nothing is accepted or nothing pending was marked applied before |
| SuggestedEdits.MarkedEditIsDropped | scripts/apply_suggested_edits.py:466-467 | an edit marked applied beside an accepted one is gone after the apply, from both lists |
| SuggestedEdits.RunConserves | scripts/apply_suggested_edits.py:260-473 | over every run of both front ends the ids in pending plus history are conserved and history only grows |
| SuggestedEdits.NeverInBoth | scripts/apply_suggested_edits.py:454-468 | with unique ids no edit is ever in both lists |
| SuggestedEdits.StepMovesLegally | scripts/apply_suggested_edits.py:271-303 | every step moves a status only from pending to accepted or rejected, or from accepted to rejected or, archived, to applied; it writes the new status, its time and a given reason, of selected edits only, and keeps everything else |
| SuggestedEdits.ArchivedApplied | scripts/apply_suggested_edits.py:436-458 | whatever is archived was accepted and its handler succeeded |
| SuggestedEdits.RejectedIsFinal | scripts/apply_suggested_edits.py:286-303 | over every run a rejected edit stays as it is and is never archived |
| SuggestedEdits.RunStamps | scripts/apply_suggested_edits.py:271-458 | over every run each accepted, rejected or archived edit carries the times of the steps that led to its status |
| SuggestedEdits.AcceptsAgreeIff | dashboard/api_intelligence.py:652-657 | accepting one id on the dashboard and on the command line agree if and only if at most one pending edit has it |
| SuggestedEdits.RejectsAgreeIff | dashboard/api_intelligence.py:682-689 | the same for rejecting |
| SuggestedEdits.DashboardTakesTheFirst | dashboard/api_intelligence.py:652-657 | with two pending edits of one id the dashboard changes the first and the command line both |
| CiSlugGate.ParseLog | scripts/check_ci_slug_match.py:174-187 | the index loop pairs the NUL-separated parts, skips blank shas and ignores an odd last part |
| CiSlugGate.LogRoundTrip | scripts/check_ci_slug_match.py:171-187 | parsing the printed log recovers exactly the commits, for any NUL-free bodies, newlines and blank bodies included |
| CiSlugGate.FormatsAreDisjoint | scripts/check_ci_slug_match.py:61-69 | no id is of both formats |
| CiSlugGate.FullIdRoundTrip | scripts/check_ci_slug_match.py:95-109 | a full id returns its normalised slug, whatever dashes and letters the slug holds |
| CiSlugGate.LegacyIdRoundTripIff | scripts/check_ci_slug_match.py:64-69 | a legacy id returns its normalised slug if and only if the slug does not begin like a time |
| CiSlugGate.TimeLikeSlugIsLost | scripts/check_ci_slug_match.py:64-69 | the slug "230100-x" does not come back from its legacy id |
| CiSlugGate.ReadableIff | scripts/check_ci_slug_match.py:95-109 | a slug can be read off an id if and only if, without outer blanks, it has one of the two formats |
| CiSlugGate.SlugsMatchIff | scripts/check_ci_slug_match.py:112-116 | any two slugs match if and only if they spell one string up to letter case, underscores for dashes and outer dashes |
| CiSlugGate.RespellingIsTheSame | scripts/check_ci_slug_match.py:112-116 | letter case, underscores for dashes and outer dashes never change what a slug matches |
| CiSlugGate.PlainSlugsMatchIff | scripts/check_ci_slug_match.py:112-116 | slugs of lower-case letters, digits and inner dashes match if and only if they are equal |
| CiSlugGate.BranchSlugOf | scripts/check_ci_slug_match.py:82-92 | one known type prefix is dropped and the rest normalised, with `origin/` in front or without |
| CiSlugGate.RemoteIsDropped | scripts/check_ci_slug_match.py:87-91 | `origin/` in front of a branch name makes no difference, unless the name itself begins with it |
| CiSlugGate.OuterBlanksAreDropped | scripts/check_ci_slug_match.py:87-87 | blanks around a branch name make no difference |
| CiSlugGate.UntypedBranchSlug | scripts/check_ci_slug_match.py:82-92 | a name without a known type is normalised whole |
| CiSlugGate.OwnBranchMatches | scripts/check_ci_slug_match.py:82-116 | the id built from a slug matches the branch named after it, local or remote, under every type prefix |
| CiSlugGate.VerdictOnPlain | scripts/check_ci_slug_match.py:82-116 | a full id of one plain slug matches the branch of another, local or remote, if and only if the slugs are equal |
| CiSlugGate.PassesOnPlain | scripts/check_ci_slug_match.py:225-248 | on the branch of a plain slug a commit with an id of another one fails, and a commit whose ids are all of that slug passes |
| CiSlugGate.GivenDecide | scripts/check_ci_slug_match.py:217-222 | the list of matches is empty exactly when no slug could be read, and holds a False exactly when a readable slug differs |
| CiSlugGate.ScanCommits | scripts/check_ci_slug_match.py:225-248 | one result per commit, with its ids and the matches of the readable ones, in order |
| CiSlugGate.Classify | scripts/check_ci_slug_match.py:303-318 | the two failure lists hold exactly the commits without an id, and those with one that do not all match |
| CiSlugGate.RunGate | scripts/check_ci_slug_match.py:264-361 | 2 exactly when git fails; with enforcement 0 exactly when every commit has a readable id and every readable one matches, so 1 on the branch of a plain slug if some commit carries the id of another; without it always 0 |
| StateMissProbe.CandidateInjective | dashboard/serve_dashboard.py:270-270 | different suffixes give different names |
| StateMissProbe.CandidateIs | dashboard/serve_dashboard.py:255-270 | the candidates are .vnx-state-miss and that name with a dash and the suffix in decimal digits |
| StateMissProbe.Pigeonhole | dashboard/serve_dashboard.py:265-266 | n occupied candidates need n occupied names |
| StateMissProbe.StateMissPath | dashboard/serve_dashboard.py:258-278 | the probe ends for every finite set of occupied names, after at most one look more than there are of them, at the free candidate with the least suffix |

## Left out

- RegisterStream.StreamSession.Poll: a client that disconnects in the middle of a batch ends the session; that cut batch, the heartbeats and the response headers are not modelled.
- RegisterStream.ReadNewEventsAfter: a read that fails half way hands over nothing, as in the original, and is the same `Unreadable` as one that fails at once; records are JSON objects.
- LinkageBackfill.Connection.ApplyToLive: the backup copy, the diagnosis printed first and the reconciler run afterwards are not modelled; the outcome of SQLite's integrity check is a parameter.
- LinkageBackfill.LoadPrMap: YAML loading and its errors; a queue is a list or not, an item is a mapping or not.
- TtlCache.TTLCache.Get: the returned value is shared with the cache in the original, so a caller that mutates it changes the cached one; here values are immutable. Boosts are reals, without rounding.
- QueryCache.KeywordExtractor.ExtractKeywords: the word regex and lower-casing are the `tokens` function; eviction and expiry by other users of the cache are `Maintaining` steps.
- MetadataBackfill.DispatchMetadata.Analyse: the loader's filter (event type, non-empty dispatch id) is the precondition `Loaded`; a dispatch id is read as its stripped text throughout.
- MetadataBackfill.DispatchMetadata.Snapshot: a table without an outcome_status column, for which the original finds no open dispatch and then fails on its first insert.
- MetadataBackfill.DispatchMetadata.ApplyBackfill: what a concurrent writer could do between the snapshot and the commit.
- ReceiptArchive.ParseLedger: a lone carriage return also ends a line when Python reads text; here only a newline does.
- ReceiptArchive.CentralLedger.ApplyPlan: the backup copy and its size check; only a backup that already exists is modelled.
- DecisionRefBackfill.TrackStore.HandleTracks: after an uncaught exception the original returns no report; the one here is what it had recorded. Also errors of the store other than the missing column; orphans are listed by track, not by file; the total number of tracks.
- DecisionRefBackfill.TrackStore.ApplySupersede: a store whose column disappears between the read and the write.
- StrategyProjection.BuildProjection: risk class, titles, review stack, notes, branch, plan path and PR number of a wave; dates and titles in the history; `blocked_on`, which the projection leaves empty.
- SuggestedEdits.EditStore.CmdApply: the handlers that write the target files are one function from edits to success; edits without an id, and the parsing of id strings.
- SuggestedEdits.EditStore.AcceptProposal: a proposal id that is not a number (400).
- CiSlugGate.ScanCommits: the regular expression that finds Dispatch-ID lines is the `extract` function; the commit's subject, which only decorates the report.
- CiSlugGate.RunGate: the git calls, base-ref resolution and everything printed.
- StateMissProbe.StateMissPath: a file-system error counts as occupied, as in the original; a file system on which every probe fails has no finite occupied set.
- Unicode: `lower()`, `isdigit()` and `\d` on characters outside ASCII, and regular expressions whose `$` matches before a final newline.
- HTTP routing, JSON, SQLite, YAML, regular-expression and encoding internals, paths, backups and temporary directories.
- `audit_chain.py`, `chain_epoch_seal.py` and `check_active_drain.py`, whose rules depend on modules that are not part of this model.
- `build_t0_state.py` and the other report and digest builders: field copying and one-branch verdicts.
