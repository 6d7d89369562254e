# sos-beacon, verified

sos-beacon fetches public posts, drops the stale, the already handled and the
off-topic ones, has a classifier judge the rest, posts the best to a webhook and
records them so that no later run repeats them. This project models that path in
Dafny and proves what it promises: from a fetched signal to a recorded finding,
the two stores it can run on, the timed loop that drives it, and the loops that
merge, filter and pace.

## Files

| file | models |
|---|---|
| Core.dfy, Text.dfy, Keys.dfy | signals, findings, the string functions the program relies on, the flattened dedupe keys |
| StoreState.dfy, FileStore.dfy, Durability.dfy | the file store: its state, the class with its steps on disk, restarts and the purge command |
| SqlStore.dfy, Backend.dfy, TwoStores.dfy | the database store, both stores behind one port, and their equivalence under the engine |
| Filter.dfy, Engine.dfy, Decisions.dfy, Pipeline.dfy, EngineLaws.dfy | the keyword gate, the pipeline as a fold, what each turn does from its inputs, the imperative pipeline that refines it, and the laws of every run |
| Interleave.dfy, History.dfy | many beacon loops on one store in any interleaving; their delivery accounting over failed calls, crashes and restarts |
| Schedule.dfy, Ticker.dfy, Health.dfy, Liveness.dfy | interval arithmetic, the one-slot ticker, the heartbeat, and the two timing promises |
| Dedupe.dfy, Tags.dfy, Lobsters.dfy, Queries.dfy, Pacing.dfy | the merge and dedupe loops of the sources, and the webhook pacing |

## How the world enters

The classifier, the sink, the network, the clock and every failure are inputs.
Each external call happens at most once per signal, so one `Fate` per signal
(does Seen answer, which verdict, is the post accepted, how far does the write
get) covers every possible run; the lemmas quantify over all of them. Feeds and
queries are sequences of answers. Time is an unbounded integer of nanoseconds,
poll durations are an arbitrary function, fit is a real number, and letter case
and white space are those of ASCII.

A file is empty, torn, or a whole document; the disk keeps a history of what the
store path held after every single step of a save, which is what a crash at that
step would leave. A failed save leaves memory ahead of the disk, as in the
original.

## Where the code differs from its comments

The model follows the code.

- internal/store/file.go:27 says the keys in Seen are "source:id"; the code
  (line 64) puts the beacon in front, and nothing rejects a colon in a beacon
  name or two beacons of one name (internal/config/config.go:96-110).
  `Keys.KeysMeetExactly` says which names can share a key,
  `Keys.PlainIdsNeverCollide` that different names do so only through an id with
  a colon, `Interleave.UndisturbedExactly` and `History.OnceExactly` that those
  are exactly the names whose loops can disturb each other and post twice,
  `Keys.PurgeHitsItsSource` for which names a purge reads the source, and
  `TwoStores.AgreeExactlyWithoutColon` for which names the two stores behave
  alike.
- internal/store/file.go:144-146 reports success without writing when memory
  holds nothing to purge, also after an earlier purge failed to save.
  `Durability.NilPurgeClearsDisk` gives the exact condition for a nil return to
  be a receipt; the purge command, which opens the store first, always meets it.
- internal/engine/engine.go:290-292 goes on after a failed record. The file store
  keeps the mark in memory, so the process does not post again; the database
  keeps nothing, so the next sight of the signal does. `EngineLaws.PostedAgainExactly`
  and `EngineLaws.PostsOnceExactly` give the exact condition and
  `History.DeliveryBound` the price: one more delivery per failed record.
- internal/delivery/discord.go:20-24 speaks of a gap between posts to one webhook;
  each poll of each beacon has a sink of its own (cmd/sos-beacon/main.go:312), and
  the gap holds within one sink. `Pacing.SpacedAcrossSinks` says when it holds
  across them, `Pacing.SinksBound` what holds always.
- cmd/sos-beacon/main.go:157-158 says loop mode always has a positive interval;
  a poll_interval of zero or one that does not parse selects loop mode without
  one; `Schedule.LoopModeCanFallBack` gives the exact condition.
- cmd/sos-beacon/main.go:248-250 warns of a gap from interval >= max_age on.
  With polls of up to D no post can age out exactly when interval + 2D is at
  most max_age (`Liveness.AllCaughtExactly`), so the warning is silent on a gap
  when the interval is under max_age but interval + 2D is not, and fires without
  one only at equality with instant polls (`Liveness.WarningExactly`).
- internal/sources/lobsters.go:37-39 says the pre-filter gates everything the
  source returns; stories of the tag feed are exempt (`Lobsters.TagFeedNarrows`).
- internal/filter/filter.go:22-38 lets a keyword that contains a space match
  across two joined parts; `Filter.PerPartExactly` shows that every such keyword
  does so for some signal, and no other keyword for any.

## Model

| member | source | states |
|---|---|---|
| Text.SplitInvertsJoin | internal/store/file.go:128 | splitting a key at colons yields colon-free parts that join back to the key |
| Text.LowerLetters | internal/filter/filter.go:27 | lower-casing sends each of the 26 capitals to its small letter and leaves every other character alone |
| Text.SameTextLowers | internal/filter/filter.go:27-33 | two texts lower-case alike if and only if they agree letter by letter but for case |
| Keys.KeySplits | internal/store/file.go:64 | a stored key splits into the parts of beacon, source and id, whatever they contain |
| Keys.KeyInjective | internal/store/file.go:64 | with colon-free beacon and source names different triples have different keys, even when ids contain colons |
| Keys.KeyNamesBeacon | internal/store/file.go:64 | the first part of a key is its beacon when that name has no colon |
| Keys.PlainIdsNeverCollide | internal/store/file.go:64 | when sources and ids have no colon, different triples have different keys whatever the beacon names hold |
| Keys.PurgeReadsMiddle | internal/store/file.go:128-129 | for any names, the purge test hits a key for exactly one source, its second part |
| Keys.PurgeHitsExactly | internal/store/file.go:125-133 | a purge hits any stored key at all if and only if it is some colon-free text, the source and something more, joined by colons |
| Keys.KeysMeetExactly | internal/store/file.go:64 | over any colon-free source names, two beacons can share a key if and only if they have one name or one name is the other, a colon and something that begins with one of those sources |
| Keys.ApartExactly | internal/store/file.go:64 | over all colon-free sources, keys meet if and only if the names are equal or one is the other followed by a colon and more |
| Keys.ApartNeverMeet | internal/store/file.go:64 | otherwise no two of their keys are equal, whatever the sources and ids contain |
| Keys.RegisteredNamesCollide | internal/sources/registry.go:28-46 | with the registered sources the beacons a and a:hn share keys |
| Keys.PurgeHitsItsSource | internal/store/file.go:125-133 | a purge tells a beacon's keys by their source if and only if the beacon name has no colon or its second part is that source |
| StoreState.PurgeExact | internal/store/file.go:113-148 | for triples of colon-free beacon and source names a purge unmarks exactly those of its source across all beacons; it drops exactly its findings, counts exactly the removed rows, and marks still cover findings |
| StoreState.PurgeSettles | internal/store/file.go:120-148 | a purge counts zero exactly when it changes nothing, and a second purge finds nothing |
| StoreState.ApplyMeans | internal/store/file.go:73-97 | each write adds the one mark of its triple, or the mark and the finding at the end, or replaces the one claim, and leaves everything else alone |
| StoreState.LoadMeans | internal/store/file.go:34-62 | opening finds nothing in an absent or empty file and a document's contents with null maps empty; only a torn file cannot be opened; saving writes what opening finds |
| FileStore.Disk.CreateTemp | internal/store/file.go:160-164 | a new temporary file appears; the store path is untouched |
| FileStore.Disk.Write | internal/store/file.go:165-169 | a temporary file changes; the store path is untouched |
| FileStore.Disk.Remove | internal/store/file.go:167-175 | a temporary file goes; the store path is untouched |
| FileStore.Disk.Rename | internal/store/file.go:174-177 | the store path takes the temporary file's content in one step |
| FileStore.Compact | internal/store/file.go:134-142 | the in-place compaction keeps the other sources' findings in order and counts the removed ones |
| FileStore.File.OpenFile | internal/store/file.go:34-62 | opening fails on an unreadable or torn file, else yields exactly the file's state with null maps made empty |
| FileStore.File.SaveLocked | internal/store/file.go:153-179 | success means the path holds exactly memory, failure that it holds what it held; at no step in between does it hold anything else; a failed save leaves its temporary file if and only if removing it failed, and touches no other |
| FileStore.File.Seen | internal/store/file.go:66-71 | answers whether the triple's key is marked |
| FileStore.File.MarkSeen | internal/store/file.go:73-79 | memory is marked in every case; a nil return means disk equals memory |
| FileStore.File.Append | internal/store/file.go:86 | the findings grow by one at the end, in place or in a new array |
| FileStore.File.Record | internal/store/file.go:81-89 | memory gains the finding and its mark in every case; a nil return means disk equals memory |
| FileStore.File.Claim | internal/store/file.go:91-97 | memory gains the claim in every case; a nil return means disk equals memory |
| FileStore.File.PendingDigest | internal/store/file.go:99-111 | exactly the beacon's findings, in the order recorded |
| FileStore.File.PurgeKeys | internal/store/file.go:124-133 | deleting while visiting keys in any order removes and counts exactly the keys the test hits |
| FileStore.File.PurgeSource | internal/store/file.go:113-148 | memory loses exactly the source; nothing is written when nothing was found |
| SqlStore.AzureSQL.Seen | internal/store/azuresql.go:110-123 | answers whether the row exists, unless the database is unreachable |
| SqlStore.AzureSQL.MarkSeen | internal/store/azuresql.go:125-133 | inserts the row if it is missing; a failure changes nothing |
| SqlStore.AzureSQL.Record | internal/store/azuresql.go:135-161 | the upsert and the mark commit together or not at all |
| SqlStore.AzureSQL.Claim | internal/store/azuresql.go:163-171 | the claim is upserted, or nothing changes |
| SqlStore.AzureSQL.PendingDigest | internal/store/azuresql.go:173-199 | each row of the beacon once, in some order |
| SqlStore.AzureSQL.PurgeSource | internal/store/azuresql.go:201-235 | both deletes commit together or not at all, and the count is the number of rows of the statements whose count the driver reports |
| Durability.RestartFindsLastSave | internal/store/file.go:66-148 | over any writes and purges a restart finds memory exactly as the last successful save saw it, so that save made durable every earlier call whose own save failed |
| Durability.TriesAdd | internal/store/file.go:66-148 | the calls of a history act on the store one after the other, purges included |
| Durability.NilPurgeClearsDisk | internal/store/file.go:144-147 | a nil purge leaves none of the source on disk if and only if memory held some or the disk held none |
| Durability.RetriedPurgeKeepsDisk | internal/store/file.go:144-147 | retrying in the same process after a failed save returns nil and leaves the disk as it was |
| Durability.PurgeCommand | cmd/sos-beacon/main.go:66-92 | a nil return of the command means the disk holds exactly what it held without that source, and the count is the rows removed |
| Filter.MatchMeans | internal/filter/filter.go:22-38 | the gate is open without keywords, else for any non-empty keyword in the joined lower-cased text |
| Filter.SpaceFreeMatchIsPerPart | internal/filter/filter.go:27-36 | a space-free keyword passes exactly when it occurs inside the title, the body, one tag or one comment |
| Filter.MatchIsAnyKeyword | internal/filter/filter.go:29-37 | a list passes exactly when it is empty or one of its keywords passes alone |
| Filter.PerPartExactly | internal/filter/filter.go:27-36 | for every signal searching the joined text is searching each part, if and only if the keyword has no space |
| Filter.MatchFoldsCase | internal/filter/filter.go:27-36 | a space-free keyword passes if and only if some segment of the title, the body, one tag or one comment is the keyword letter by letter but for case |
| Filter.CaseNeverMatters | internal/filter/filter.go:27-36 | changing the case of letters in the texts or the keywords never changes the gate |
| Decisions.StaleExactly | internal/engine/engine.go:196-199 | one turn counts a signal stale, and leaves store and posts alone, if and only if max_age is positive, the signal is dated and it is older than that |
| Decisions.SeenStops | internal/engine/engine.go:202-211 | a known signal counts as seen and an unanswered one as an error, and nothing else changes |
| Decisions.GateExactly | internal/engine/engine.go:217-223 | a signal is filtered if and only if its source does not prefilter, it is not pre-narrowed and it does not match; it is then counted and marked, not posted |
| Decisions.FailureRetries | internal/engine/engine.go:238-281 | a failed classification or delivery leaves store and posts alone and moves exactly the classified and the error counter |
| Decisions.NoiseIsDropped | internal/engine/engine.go:255-261 | noise or a fit under the digest threshold is marked and counted, not posted or recorded |
| Decisions.KeptIsRecorded | internal/engine/engine.go:263-293 | a kept verdict is recorded, after an accepted post from the realtime threshold on and for the digest below it, with the counters of either |
| Decisions.MarkedExactly | internal/engine/engine.go:213-293 | an arriving signal is marked afterwards if and only if the write takes effect and, unless the gate stopped it, there is a verdict that calls for no post or whose post was accepted |
| Decisions.CollectedInOrder | internal/engine/engine.go:155-179 | the loop gets every fetch's signals, those of failed fetches too, in order |
| Decisions.CountFetchAdds | internal/engine/engine.go:169-177 | one fetch counts its signals, and an error if it failed, under its own name only |
| Decisions.PrefilteredSkip | internal/engine/engine.go:184-217 | a run's signal skips the keyword gate if and only if some fetcher of its source's name prefilters or it is pre-narrowed |
| Engine.SumPeel | internal/engine/engine.go:79-95 | column sums do not depend on the order in which the map is visited |
| Engine.SumUpdate | internal/engine/engine.go:79-95 | changing one source's counters moves the column sums by just that much |
| Pipeline.Tally.At | internal/engine/engine.go:69-77 | returns the source's own counter object, zero on first sight, shared with no other source |
| Pipeline.Tally.Moved | internal/engine/engine.go:64-77 | counting through one source's pointer changes that source only |
| Pipeline.Tally.Rollup | internal/engine/engine.go:79-95 | the snapshot is the tally and the totals are its column sums, for any iteration order |
| Pipeline.SourceStats.CountFetch | internal/engine/engine.go:168-177 | one fetch adds its signals, and an error when it failed |
| Pipeline.FetchOne | internal/engine/engine.go:168-178 | a fetch is counted under its fetcher's name and nowhere else |
| Pipeline.FetchAll | internal/engine/engine.go:155-179 | the phase collects and counts exactly the fetches before a cancelled pause |
| Pipeline.Route | internal/engine/engine.go:192-293 | one signal's way through the stages has the outcome, the store write, the post and the counts of the pure step |
| Pipeline.Classify | internal/engine/engine.go:225-293 | a classifier error writes nothing, a dropped signal is marked, a kept one goes on to be posted or recorded |
| Pipeline.Sink.Deliver | internal/core/core.go:100-104 | only an accepted finding is posted |
| Pipeline.Claim | internal/core/core.go:126-130 | on either store a claim is one write |
| Pipeline.PurgeSource | internal/core/core.go:144-146 | on either store a purge is the pure purge and reports its rows |
| Pipeline.Post | internal/engine/engine.go:263-292 | a failed delivery records nothing; a delivered or digest finding is recorded whatever the save does |
| Pipeline.Process | internal/engine/engine.go:192-293 | the loop body on the heap has the outcome, store, post and tally of the pure step on either store, and the store path holds only what it held before or after |
| Pipeline.HandleOne | internal/engine/engine.go:191-293 | one turn takes the heap from the fold after k signals to the fold after k + 1 |
| Pipeline.HandleAll | internal/engine/engine.go:191-293 | on either store the loop is the fold of its signals; every content the file store's path ever held is that after some whole number of signals |
| Pipeline.RunBeacon | internal/engine/engine.go:97-296 | on either store a run ends in the fold's store, posts and counters; it fails if and only if a port is missing, else max_age is malformed, else a pause between fetches finds the context cancelled, and then changes neither store nor sink |
| Pipeline.ReplaysMeans | internal/store/file.go:150-179 | a crash at any step of a run leaves a whole file, the one after some whole number of its signals |
| EngineLaws.FunnelConservation | internal/engine/engine.go:38-95 | every counter is exact and nothing leaks: fetched + fetch errors + record errors = stale + seen + filtered + dropped + delivered + digest + errors, for totals always and per source when fetchers stamp their own name |
| EngineLaws.PostsCounted | internal/engine/engine.go:283-289 | delivered counts the posts; delivered plus digest counts the recorded findings, on the database less the failed records |
| EngineLaws.NothingLost | internal/engine/engine.go:191-293 | on either store the marks after a run are the old ones plus exactly the rows settled by a write that took effect; an unmarked triple had every occurrence stale or failing in classify or deliver, on the database also in Seen or in the write |
| EngineLaws.UnmarkedRetries | internal/engine/engine.go:196-293 | for an unmarked signal, the outcomes that leave it to be retried are exactly those after which it is unmarked |
| EngineLaws.MarksAreSettled | internal/engine/engine.go:191-293 | the same between any two signals of a run |
| EngineLaws.PostsAndRecords | internal/engine/engine.go:263-292 | a run posts exactly its delivered findings and the store gains exactly its delivered and digest findings whose record took effect, appended to the file or upserted into the table, in order |
| EngineLaws.PostsExact | internal/engine/engine.go:213-292 | on either store a finding is posted if and only if its signal was fresh, answered for, unmarked and past the gate, and its own verdict is not noise, reaches both thresholds and was accepted; likewise for the stored ones, whose record must also take effect |
| EngineLaws.PostsOnce | internal/engine/engine.go:201-211 | nothing marked is posted again; no triple is posted twice in a run whose posts are recorded with effect, as on the file store they always are |
| EngineLaws.PostsOnceExactly | internal/engine/engine.go:201-292 | on either store no triple is posted twice in a run if and only if no delivered signal is followed by a repeat, which takes the database and a failed record |
| EngineLaws.PostedAgainExactly | internal/engine/engine.go:290-292 | a delivered signal's triple is delivered again if and only if the later signal would be delivered on its own, the store is the database, and no write for the triple took effect in between |
| EngineLaws.UnrecordedRepeats | internal/engine/engine.go:290-292 | with records that keep failing, a run over n copies of a signal posts n times on the database and once on the file store |
| EngineLaws.RerunDoesNothing | internal/engine/engine.go:191-211 | after a failure-free run a later run over its signals, in any order, posts, records and marks nothing |
| History.DeliveryBound | cmd/sos-beacon/main.go:204-236 | on either store, over any interleaving of loops that share no row, any failed calls and crashes at any step, a row is delivered at most once more than its mark was lost (on the file store by a restart, on the database also by a failed record), and never if it was marked for good |
| History.LossesAreReal | cmd/sos-beacon/main.go:204-236 | a row's losses never exceed its deliveries, so the two differ by at most one |
| History.TurnMeans | cmd/sos-beacon/main.go:204-236 | a step counts a delivery for exactly the row whose accepted post it makes and a loss for exactly the row it fails to record in the database |
| History.RebootMeans | internal/store/file.go:34-62 | a restart forgets what is not in the file or the database and loses exactly the posted rows not found there |
| History.OncePerProcess | internal/engine/engine.go:202-292 | within one process of such loops no two posts, of one loop or of two, carry one triple: on the file store even when every save fails, on the database when its writes commit |
| History.OnceExactly | cmd/sos-beacon/main.go:210-229 | on either store, two loops of one process whose writes take effect never deliver a row twice if and only if their beacons' rows never meet |
| History.SharedRowPostsTwice | cmd/sos-beacon/main.go:210-229 | two loops that share a row can both post it |
| History.NamesSeparate | internal/store/file.go:64 | loops whose beacons' rows never meet share no row |
| History.TurnsAreTogether | cmd/sos-beacon/main.go:204-236 | until the process ends a history is the interleaving machine |
| History.BoundIsReached | internal/engine/engine.go:265-292 | on either store a process that stops between a post and its record, n times over, makes n losses and n + 1 deliveries |
| History.RunIsHistory | internal/engine/engine.go:191-293 | a run of the engine is such a history: the same store and disk, and the deliveries are exactly the rows of the engine's posts |
| TwoStores.StoresAgree | internal/store/azuresql.go:38-46 | on any runs and purges from empty stores, with colon-free names and a database that answers, both stores give the same counters, posts, outcomes, purge counts, Seen answers and digests |
| TwoStores.PlayAdds | cmd/sos-beacon/main.go:293-330 | the observed histories are the engine's runs and the stores' purges, one after the other |
| TwoStores.RunAlike | internal/engine/engine.go:191-293 | with colon-free names and a database that answers, a run on either of two stores that hold the same ends in stores that hold the same, with equal counters, posts and outcomes |
| TwoStores.SameAfterRecord | internal/store/file.go:83-89 | append and upsert agree because the recorded key was unmarked |
| TwoStores.SameAfterClaim | internal/store/file.go:91-97 | a claim keeps the stores alike |
| TwoStores.PurgeAlike | internal/store/azuresql.go:211-235 | both purges remove the same rows and report the same count |
| TwoStores.DigestsAgree | internal/store/file.go:99-111 | whatever the row order, both digests are the same multiset |
| TwoStores.ColonNamesDisagree | internal/store/file.go:123-133 | for every beacon name with a colon and every colon-free source other than its second part, a purge after one dropped signal finds nothing in the file and one row in the database |
| TwoStores.AgreeExactlyWithoutColon | internal/store/file.go:123-133 | no history of a beacon over the registered sources tells the stores apart, if and only if its name has no colon |
| Interleave.NonInterference | cmd/sos-beacon/main.go:204-236 | on either store, under any interleaving of store calls and any failures, when no two loops' beacons have rows that meet, each loop has the marks, digest, posts, outcomes and counters of running alone |
| Interleave.ViewTells | internal/store/file.go:66-111 | equal views answer Seen alike for every triple of the beacon, and PendingDigest alike |
| Interleave.RowsMeetExactly | internal/store/file.go:64 | on the file store rows meet where keys do, on the database where names are equal |
| Interleave.UndisturbedExactly | cmd/sos-beacon/main.go:204-236 | on either store two beacons' loops never disturb each other if and only if their rows never meet |
| Interleave.TickReadsView | internal/store/file.go:64-111 | what a loop does next depends only on its own beacon's part of the store |
| Interleave.TickLeavesOthers | internal/store/file.go:64-111 | a loop's step leaves every other beacon's part of the store as it was |
| Interleave.AloneIsEngine | internal/engine/engine.go:191-293 | a loop alone ends in the store, on disk too, and the posts, outcomes and counters of the sequential engine |
| Interleave.PollIsRun | internal/engine/engine.go:119-293 | a whole poll alone, whatever the one before left, has the tally of its fetch phase and then of the engine |
| Schedule.MaxPollInterval | cmd/sos-beacon/main.go:156-170 | no configured interval, global or a beacon's own, exceeds the result, and the result is one of them, or a minute when none is positive |
| Schedule.MaxIntervalUnique | cmd/sos-beacon/main.go:159-170 | that specification determines the result |
| Schedule.OwnIntervalWins | cmd/sos-beacon/main.go:188-199 | a beacon's own interval wins over the global one, whichever is longer, and one that does not parse leaves it none |
| Schedule.OneShotExactly | cmd/sos-beacon/main.go:172-184 | the process runs once if and only if no interval is configured |
| Schedule.LoopModeCanFallBack | cmd/sos-beacon/main.go:156-184 | loop mode lacks a positive interval if and only if the global one is not positive, some poll_interval is set and none that parses is positive; only then is the result the fallback minute |
| Schedule.StaggerExact | cmd/sos-beacon/main.go:241-246 | the offset is the exact fraction of the interval if and only if the int64 product fits |
| Schedule.WrapMeans | cmd/sos-beacon/main.go:245 | the int64 product is in range and congruent to the true one modulo 2^64 |
| Schedule.TruncMeans | cmd/sos-beacon/main.go:245 | the quotient is truncated toward zero |
| Schedule.StaggerSpread | cmd/sos-beacon/main.go:238-246 | offsets lie within the interval, grow with the index, and keep any two beacons at least the floor of interval/count apart both ways around |
| Schedule.StaggerBelowInterval | cmd/sos-beacon/main.go:241-246 | an offset stays under the interval even when the int64 product wraps |
| Health.Monitor.constructor | internal/health/health.go:22-29 | start-up counts as the first beat |
| Health.Monitor.Ready | internal/health/health.go:31-32 | readiness flips and stays |
| Health.Monitor.Beat | internal/health/health.go:34-36 | the newest beat is remembered |
| Health.Monitor.Readyz | internal/health/health.go:38-44 | answers 200 if and only if Ready has been called, else 503 |
| Health.Monitor.Healthz | internal/health/health.go:46-53 | answers 200 exactly when ready and the newest beat is younger than the window |
| Health.HealthyMeans | internal/health/health.go:46-53 | with an orderly clock: healthy if and only if ready and start-up or some beat lies within the window |
| Health.SilenceIsStale | internal/health/health.go:22-36 | once beats stop the probe fails from staleAfter later until the next beat |
| Ticker.DueIsFirstChance | cmd/sos-beacon/main.go:278-288 | a tick is received at the first moment the loop is ready and some tick has fired since the channel was emptied |
| Ticker.StartsAdvance | cmd/sos-beacon/main.go:278-288 | the next poll begins within one interval of the last beat, and polls never stall |
| Ticker.Receive | cmd/sos-beacon/main.go:281-285 | the one-slot channel, tick by tick, gives that moment |
| Ticker.TickTimeIs | cmd/sos-beacon/main.go:278 | the n-th tick fires n intervals after the first poll has ended |
| Ticker.LoopBeacon | cmd/sos-beacon/main.go:255-290 | the first beat comes a stagger and a poll after the launch; each next poll begins within an interval of the last beat and beats at its end, at the times of the closed form, or never without an interval; the monitor holds these beats among whatever the other loops report |
| Liveness.PacedLoopKeepsHealthy | internal/health/health.go:46-53 | whatever else beats, one loop whose first beat and whose interval plus longest poll fit the window keeps the probe green over an unbounded run |
| Liveness.LoopStaysHealthy | cmd/sos-beacon/main.go:139-148 | if a configured loop's launch lag plus interval plus longest poll stays under twice the largest interval, then whatever else reports to the monitor a ready process is healthy at every time from start-up on, by the log of beats that the loop itself leaves |
| Liveness.FirstPollsSpread | cmd/sos-beacon/main.go:238-268 | two loops of one interval launched together begin their first polls at least the floor of interval/count apart, both ways around |
| Liveness.PollsKeepTime | cmd/sos-beacon/main.go:278-288 | polls shorter than the interval begin exactly on their ticks |
| Liveness.NoCoverageGap | cmd/sos-beacon/main.go:248-253 | with polls of at most D and interval + 2D within max_age, every post since the first poll has a first poll begun after it, and no turn of the signal loop in that poll counts it stale |
| Liveness.AllCaughtExactly | cmd/sos-beacon/main.go:248-253 | the signal loop catches all posts of all runs with this interval and polls of at most D if and only if there is no positive max_age or interval + 2D is within it |
| Liveness.WarningExactly | cmd/sos-beacon/main.go:216-223 | the warning is silent on a gap if and only if interval < max_age < interval + 2D, and fires without one if and only if interval = max_age and D = 0 |
| Dedupe.FirstsMeans | internal/sources/lobsters.go:140-167 | first occurrences are ordered, distinct, non-empty and complete |
| Tags.NormalizeTags | internal/sources/lobsters.go:56-73 | trim and lower-case, drop blanks, keep first occurrences, take twelve, despite the early break |
| Tags.NormalTagsStable | internal/sources/lobsters.go:56-73 | the result is distinct, without blanks, at most twelve long, and a fixed point |
| Tags.NormalTagsMeans | internal/sources/lobsters.go:56-73 | the result lists, in order and all of them up to twelve, the first occurrences of the trimmed, lower-cased tags that are not blank |
| Tags.TrimMeans | internal/sources/lobsters.go:60 | trimming cuts white space off both ends and nothing else |
| Lobsters.AddStory | internal/sources/lobsters.go:157-187 | a repeated story upgrades its entry in place, a new one is appended, a blank id is skipped |
| Lobsters.AddFeed | internal/sources/lobsters.go:157-188 | one feed's stories are merged into what earlier feeds gave |
| Lobsters.FetchLobsters | internal/sources/lobsters.go:134-191 | for any feeds and failures the result is the merge of the feeds that answered, with the first error |
| Lobsters.MergedFirsts | internal/sources/lobsters.go:157-188 | the merge is the first listings of the ids, in order, each as its first listing has it |
| Lobsters.StoryFields | internal/sources/lobsters.go:173-187 | a story's fields, description and tags and creation time among them, as the signal carries them |
| Lobsters.FeedsMean | internal/sources/lobsters.go:85-97 | the global listing is always polled, and with tags one pre-narrowing feed whose address names exactly them |
| Lobsters.MergedMeans | internal/sources/lobsters.go:140-189 | ids are distinct, non-empty and complete, and a story is pre-narrowed exactly when some listing of it is |
| Lobsters.TagFeedNarrows | internal/sources/lobsters.go:85-97 | with the configured feeds, pre-narrowed means listed by the tag feed |
| Queries.AddHits | internal/sources/hn.go:79-98 | the inner loop adds exactly the first occurrences not seen in earlier queries |
| Queries.FirstHitsMeans | internal/sources/hn.go:79-98 | the deduplicated signals have distinct, non-empty ids and miss none |
| Queries.FetchHN | internal/sources/hn.go:65-101 | the deduplicated results of the queries before the first failure, with its error |
| Queries.HNMeans | internal/sources/hn.go:79-98 | the result lists, in order and field by field, exactly the hits with an id that no earlier hit has |
| Queries.FetchReddit | internal/sources/reddit.go:195-267 | the deduplicated non-stickied results of all answered queries, with the first error, or those before a cancelled pause |
| Queries.RedditMeans | internal/sources/reddit.go:234-264 | the result lists, in order and field by field, exactly the posts that are not stickied, have a name or id, and share it with no earlier post that is not stickied |
| Queries.StickiedAbsent | internal/sources/reddit.go:239-243 | an id that only stickied posts have is absent |
| Queries.AskedNext | internal/sources/reddit.go:210-233 | the first error is over one query for each keyword that is not blank |
| Queries.QueriesDedupe | internal/sources/reddit.go:234-264 | for any overlap of queries ids stay distinct and none is lost |
| Pacing.Discord.Pace | internal/delivery/discord.go:120-146 | a call stamps the end of its wait, or changes nothing when cancelled |
| Pacing.Discord.PaceAll | internal/delivery/discord.go:120-146 | a run of calls on a new sink leaves exactly the stamps of the fold |
| Pacing.WaitsJustEnough | internal/delivery/discord.go:120-146 | a call waits exactly until the gap is over, and leaves no stamp if and only if it is cancelled during a wait |
| Pacing.WindowCounts | internal/delivery/discord.go:120-146 | the window bounded below counts each stamp in it once |
| Pacing.PacingBound | internal/delivery/discord.go:120-146 | one sink's stamps are at least the spacing apart, so a half-open window of length L holds at most the ceiling of L/spacing of them |
| Pacing.SpacedAcrossSinks | internal/delivery/registry.go:25-32 | over polls with a sink each the minimum gap holds if and only if each poll's first post comes that much after the last post before it |
| Pacing.SinksBound | internal/delivery/registry.go:25-32 | such a window holds at most that many posts of each sink |
| Pacing.SinksAtOnce | internal/delivery/registry.go:25-32 | n sinks can post at one instant |

## Left out

- HTTP clients, URLs, JSON and YAML decoding, OAuth and its token cache: library behaviour and I/O, represented by answers.
- Tracing, logging, prompt rendering, embed text, labels and titles: no effect on the pipeline's state.
- Registries, flags, environment variables, defaults and DSN resolution: wiring.
- A database call that takes effect though its failure is reported: a failed call leaves the tables alone.
- SQL isolation between processes, collation, column widths and schema migration: a table is a set or a map and a transaction is atomic.
- Power loss: the save is deliberately fsync-free, so only process crashes are modelled, with rename atomic and temporary names never equal to the store path.
- Concurrent callers of one Discord sink, and two beats racing between reading the clock and storing it: each call is one step.
- Non-ASCII letters and white space, NaN fits, and the saturation of time differences beyond 292 years.
- Pipeline.RunBeacon: is proved for one store, of either kind, that is both deduper and recorder, as cmd/sos-beacon/main.go:318-325 wires it; two different stores in those roles are not modelled.
- TwoStores.StoresAgree: assumes a database that answers; what a failed database call does is stated by the SqlStore methods.
- Interleave.NonInterference: speaks of each beacon's part of the store in the running process; the file on disk is shared, and Durability and History say what it holds.
- Ticker.LoopBeacon: runs on a clock of its own; time between a tick and the poll it starts counts as part of the poll.
