# Verified model of the kline cache and the order book writer

This project models, in Dafny, the parts of the repository that keep market data safe while everything
happens at once, and proves what they guarantee.

* **Kline cache and files.** A candle list per symbol and interval is kept sorted by a copy-on-write upsert,
  cached behind a lock with dirty flags, flushed to disk in three separate phases (snapshot, save, clear), and
  rebuilt at start-up by a bounded pool of workers that merges exchange history into the files.
* **Database mirror.** Every push is also written to a table by a goroutine of its own.
* **Snapshot writer gate.** Fire-and-forget writers and a spinning blocking writer share one compare-and-swap flag.
* **Connections.** Subscriptions are cut into shards; connection loops reconnect with a growing back-off.

Where the source updates something in place the model does too: the cache, the file system, the database
client, the snapshot writer and the connections are classes, candle lists are arrays, loops are loops. Each
method is proved equal to a function on plain values. The flush and the worker pool are step relations built from
those same functions. The gate is a step relation of its own, and the writer's class is tied to it the other way
round: each of its statements records the protocol event it stands for, and its invariant says that its fields are
those of the state these events lead to. So what is proved about every run is about the code's own operations.

## Main results

* *Upserts.* The binary-search upsert is a map update on an ascending list; a run of upserts is determined by
  its last write per open time, so two upserts commute exactly when their times differ or they are equal.
* *Names and paths.* Wire spellings and file paths are spelled out for every symbol, interval and key. The wire
  spelling is injective for all strings; the flusher writes the file that start-up reads exactly for symbols
  without underscores, so a configured symbol with one is flushed elsewhere.
* *Flush against pushes.* In every run of pushes, snapshot, save, clear, failed saves and crashes, a file is a
  list its entry really held, saves never go back in time, and memory is the file plus the pushes counted as
  unsaved. The dirty flag is cleared unconditionally, so a clean entry can differ from its file; it does so
  exactly when the pushes between its snapshot and its clear change what the file says. A concrete run shows it.
  Undisturbed, the steps do exactly what the flush loop does.
* *Recovery.* With a gapless feed, a crash at any step of the live phase followed by a start-up leaves cache and
  file showing exactly the exchange history if and only if the fetch reaches the file's last candle, or misses
  just that one and the file had its current value. With at least two candles in the file and fetches that reach
  back far enough it holds over any number of lives, whether they die during start-up or later. Inputs on which
  it fails are given.
* *Start-up.* Never more pairs run than there are workers. Every uncancelled schedule of the worker pool ends as
  if each pair had run alone, and its total is the sum of theirs; stopped
  anywhere, with temporary files open, half written or about to be renamed, it leaves every file as found or
  completely merged; and it ends in a state from which every result about the live phase holds.
* *Writer gate.* One owner at a time, the destination always whole, renames in the order of acceptance. From any
  reachable state, no course of events without new calls takes the destination back to an older snapshot if and
  only if nothing that may still land is older than what is shown and nothing still trying is older than anything
  else that may land. A single caller with rising versions always meets that condition; two callers need not.
* *Mirror.* A row shows the write that reached it last; once all succeeded it agrees with the cache exactly
  when that write carries the last push's record.
* *Connections.* Cutting by position is the only way to partition a list into full shards. Every run of a
  connection loop is described attempt by attempt: the events of each session are its own frames in order,
  reconnect notices stand right behind every connect but the first, and waits follow a closed form.

## Where the code and its documents part

* `kline/prd.md:416-419` describes flushing as saving every dirty entry and then clearing its flag. The code
  clears the flag without looking (`kline/internal/store/store.go:103-113`), so a push in between can stay
  unsaved, also by the final flush. The model follows the code: `FlushRuns.CleanIsSavedIff`,
  `FlushRuns.RaceLosesThePush`, `FlushRuns.FinalFlushSavesIff`.
* `kline/prd.md:338` resumes from the last closed candle. With exactly one candle in the file the code resumes
  after it (`kline/internal/rest/bootstrap.go:173-178`), so that candle is never fetched again:
  `Rest.CatchUpRecoversIff`, `Recovery.LoneCandleIsNotRefetched`.
* `kline/prd.md:338-340` expects the gap to be filled. Only the newest `limit` candles of an answer are kept
  (`kline/internal/rest/client.go:81-83`), so a longer gap leaves a hole: `Recovery.LongGapLosesCandles`.
* A configured symbol with an underscore is flushed to a file that start-up never reads:
  `Symbols.UnderscoredSymbolIsMisplaced`.
* `orderbook/prd.md:242` has a fire-and-forget writer only; the code also has a blocking one, and with a second
  caller the newest snapshot need not stay in place: `Order.TwoCallersCanGoBack`, `Order.NeverGoesBackIff`.

## Files

| file | what it models |
|---|---|
| `candles.dfy`, `symbols.dfy` | candle lists and upserts; symbol spelling, keys and paths |
| `store.dfy`, `files.dfy`, `handler.dfy` | the cache, the files and one undisturbed flush, the push handler |
| `flushing.dfy`, `flush_runs.dfy` | pushes against the flush as steps, and what holds over whole runs |
| `rest.dfy`, `recovery.dfy` | REST answers, the resume point, catch-up; crash and recovery end to end |
| `bootstrap.dfy`, `pool.dfy`, `confluence.dfy`, `interrupted.dfy` | one pair's start-up, the worker pool, its confluence, cancelled and crashed start-ups |
| `lives.dfy` | one life after another on the same disk |
| `startup.dfy`, `products.dfy` | preload, symbol filter and the hand-over to the live phase; row-major products |
| `tables.dfy`, `mirror.dfy` | the candle table; the cache mirrored into it |
| `gate.dfy`, `order.dfy`, `writer.dfy` | the gate as a protocol; when order is kept; the file-backed writer |
| `sharding.dfy`, `conn.dfy`, `reconnect.dfy`, `depth.dfy` | shards; both connection loops; the depth snapshot request |

Check everything with `dafny verify dfyconfig.toml`.

## Model

| member | source | states |
|---|---|---|
| Candles.Search | kline/internal/kline/candle.go:23-25 | the bisection loop, on any list, sorted or not |
| Candles.BisectFindsLowerBound | kline/internal/kline/candle.go:23-25 | on an ascending list it finds the first open time not below the one sought |
| Candles.BisectFindsAStep | kline/internal/kline/candle.go:23-25 | on any list, sorted or not, it stops where the times step from below the one sought to not below it |
| Candles.TimelineShowsLast | kline/internal/kline/candle.go:22-39 | what a list shows at a time is its last candle with that time |
| Candles.Upsert | kline/internal/kline/candle.go:22-39 | the result is a newly allocated list with exactly the upserted contents; nothing that existed before is written |
| Candles.UpsertRefinesMapUpdate | kline/internal/kline/candle.go:22-39 | the list stays strictly ascending and its time-to-candle map changes at exactly one key |
| Candles.UpsertAllOverrides | kline/internal/rest/bootstrap.go:136-139 | a run of upserts is the old map overridden by the last write per open time |
| Candles.AscendingIsCanonical | kline/internal/kline/candle.go:22-39 | an ascending list is determined by its map |
| Candles.RunsAgreeIffOverridesAgree | kline/internal/rest/bootstrap.go:136-139 | two runs give identical lists if and only if they override the map alike |
| Candles.UpsertsCommuteIff | kline/internal/kline/candle.go:22-39 | two upserts commute exactly when their open times differ or the candles are equal |
| Candles.MergeIsIdempotent | kline/internal/rest/bootstrap.go:136-139 | repeating a merge changes nothing |
| Symbols.TrimTakesOuterSpaces | kline/internal/symbol/symbol.go:24-27 | trimming takes the spaces at both ends, all of them, and nothing else |
| Symbols.AsciiSpaces | kline/internal/symbol/symbol.go:24-27 | which ASCII characters count as spaces |
| Symbols.StripDropsUnderscores | kline/internal/store/file.go:147 | letter by letter: underscores go, every other letter stays in its place |
| Symbols.WireSpelling | kline/internal/symbol/symbol.go:6-21 | one underscore in front of USDT, USDC or BTC at the end of the trimmed symbol, unless nothing is left in front; otherwise the trimmed symbol itself |
| Symbols.StripUndoesToMEXC | kline/internal/symbol/symbol.go:6-21 | removing underscores from the wire spelling gives the trimmed symbol back exactly when it had none |
| Symbols.WireIsTrimmed | kline/internal/symbol/symbol.go:6-21 | a wire symbol needs no trimming, and is empty only for the empty symbol |
| Symbols.ToMEXCInjective | kline/internal/symbol/symbol.go:6-21 | two symbols share a wire spelling if and only if they are the same when trimmed, for all strings |
| Symbols.KeySplitsBack | kline/internal/store/store.go:160-162 | splitting a key at its first colon recovers both parts exactly for colon-free symbols |
| Symbols.LoneColon | kline/internal/store/file.go:134-145 | a key whose second part has no colon comes from one symbol and interval only |
| Symbols.KeyForInjective | kline/internal/store/store.go:160-162 | keys of colon-free symbols agree exactly when symbols and intervals do |
| Symbols.BootstrapPathIs | kline/internal/rest/bootstrap.go:105 | the path start-up reads and that of its temporary file, spelled out for every base directory, symbol and interval |
| Symbols.FlushPathIs | kline/internal/store/file.go:126-153 | the path the flusher writes, or which error it reports, spelled out for every key and all names, blank ones included |
| Symbols.BaseDirectoryMatters | kline/internal/rest/bootstrap.go:105 | for a pair, two base directories give the same file only if they are the same |
| Symbols.FlushPathMeetsBootstrapPath | kline/internal/store/file.go:126-153 | the flusher writes where start-up reads exactly for underscore-free symbols, and that is base directory, interval and trimmed symbol with `.json` behind it |
| Symbols.UnderscoredSymbolIsMisplaced | kline/internal/store/file.go:147-152 | the two different files of a symbol with an underscore |
| Symbols.InvalidKeyIff | kline/internal/store/file.go:131-138 | resolution fails for the key exactly when a name is blank and the key has no colon |
| Symbols.BlankNamesFallBack | kline/internal/store/file.go:134-145 | a blank symbol or interval resolves exactly as the part of the key it was built from |
| Symbols.DistinctPairsDistinctFiles | kline/internal/rest/bootstrap.go:105 | two pairs share a file if and only if trimmed symbol and interval agree |
| Symbols.TempIsNoDataFile | kline/internal/store/file.go:65 | no temporary file has the path of a data file |
| Store.Entry.Clone | kline/internal/store/store.go:165-176 | a copy of equal value that shares no list with the original |
| Store.CandleStore.constructor | kline/internal/store/store.go:46-53 | an empty cache |
| Store.CandleStore.Upsert | kline/internal/store/store.go:55-86 | the new cache is the old one with one key upserted and marked dirty, its list newly allocated, and one mirror task issued if there is a mirror |
| Store.CandleStore.GetDirty | kline/internal/store/store.go:89-101 | unshared copies of exactly the dirty entries, each once, nothing else |
| Store.CandleStore.ClearDirty | kline/internal/store/store.go:104-113 | one flag falls, unconditionally, and nothing else changes |
| Store.CandleStore.Load | kline/internal/store/store.go:116-136 | the key shows the given file, clean, with missing names filled in |
| Store.CandleStore.All | kline/internal/store/store.go:139-148 | unshared copies of all entries under their own keys |
| Store.CandleStore.Has | kline/internal/store/store.go:151-157 | true exactly for the keys of the cache |
| Store.UpsertTouchesOneEntry | kline/internal/store/store.go:55-86 | a push changes one entry: names, flag and time stamp as stated, its list at one open time; all other entries stay |
| Store.LoadTouchesOneEntry | kline/internal/store/store.go:116-136 | a load changes one entry, which then shows the file, clean, with blank names filled in |
| Store.ClearTouchesOneFlag | kline/internal/store/store.go:104-113 | a clear changes one flag, and nothing for an unknown key |
| Store.UpsertKeepsDirtyMatching | kline/internal/store/store.go:77-80 | after a push every dirty entry still carries the symbol and interval of its key |
| Store.ClearKeepsDirtyMatching | kline/internal/store/store.go:104-113 | so it does after a clear |
| Store.LoadKeepsDirtyMatching | kline/internal/store/store.go:116-136 | and after a load, whatever names the loaded file carries |
| Files.FileSystem.Load | kline/internal/store/file.go:28-47 | a missing file reads as empty, an unreadable one and an undecodable one are errors of their own, a decoded list is shared with nobody |
| Files.FileSystem.SaveFile | kline/internal/store/file.go:50-76 | the disk after a save that succeeds, stops at the directory, half way through the temporary file, or at the rename, whether or not the temporary file can then be removed |
| Files.SaveIsAtomic | kline/internal/store/file.go:50-76 | success exactly without a fault; the data file is the new one whole or the old one, no other data file changes, and what is left at the temporary path after each fault |
| Files.FlushEntry | kline/internal/store/file.go:106-119 | one round on the live cache and disk: resolve, save, and only then clear |
| Files.FlushEntries | kline/internal/store/file.go:105-122 | the loop over the snapshots and its count |
| Files.FlushDirtyEntries | kline/internal/store/file.go:99-123 | a flush works on snapshots of exactly the dirty entries, taken at once |
| Files.FlushSettlesEveryEntry | kline/internal/store/file.go:99-123 | undisturbed, every dirty entry ends clean with exactly its own list on disk if its save succeeds, and dirty with its old file if not or if it has no path |
| Files.FlushCountsSaves | kline/internal/store/file.go:104-122 | the number reported is that of the snapshots that have a path and whose save succeeds |
| Files.FlushLeavesOthers | kline/internal/store/file.go:99-123 | entries and files without a snapshot are untouched |
| Handler.HandleMessage | kline/internal/ws/handler.go:49-64 | the cache changes, and one mirror task is issued, only for a well-formed push of a known pair |
| Handler.HandlePushKline | kline/internal/ws/handler.go:67-101 | the gate in front of the upsert |
| Handler.OnlyKnownPushesCount | kline/internal/ws/handler.go:49-101 | exactly the frames on channel `push.kline` with a push that has both names, for a key the cache has, count; they act as the upsert of their candle and all others change nothing |
| Handler.HandlingKeepsKeys | kline/internal/ws/handler.go:79-99 | no frame, whatever it carries, adds or removes a key |
| Flushing.StepsMakeOneRound | kline/internal/store/file.go:105-122 | whatever the fault, the steps for one snapshot do exactly what one round of the flush loop does |
| Flushing.StepsMakeTheFlush | kline/internal/store/file.go:99-123 | undisturbed from snapshot to finish, the steps do exactly what the whole flush does |
| Flushing.HeadResolves | kline/internal/store/file.go:106-111 | no entry of a laid-out configuration is ever skipped: its snapshot resolves to the file start-up reads |
| Flushing.StepKeepsInv | kline/internal/store/file.go:99-123 | every push, flush step, failure and crash keeps keys, dirty entries and the queue of snapshots consistent |
| Flushing.StepEffect | kline/internal/store/store.go:55-113 | what each step may change: memory only by a push or restart, a file only by a rename of its own snapshot, a flag only by a clear or restart |
| Flushing.WholeSnapshotsInstalled | kline/internal/store/file.go:50-76 | a rename installs the snapshot whole, names and list, time stamp aside; no other event changes a data file |
| FlushRuns.RunKeepsInv | kline/cmd/server/main.go:97-116 | the invariant and the key set hold at every moment of every run |
| FlushRuns.FilesShowPastMemory | kline/internal/store/file.go:50-123 | each file holds a complete list its entry really held at an earlier moment, through failed saves and crashes |
| FlushRuns.SavesNeverGoBack | kline/internal/store/file.go:50-123 | that moment never moves back |
| FlushRuns.FilesStayReadable | kline/internal/store/file.go:65-73 | a readable file stays readable at every step |
| FlushRuns.MemoryIsFilePlusUnsaved | kline/internal/store/store.go:55-113 | memory is the file with exactly the unsaved pushes upserted into it |
| FlushRuns.FlagAlwaysTracks | kline/internal/store/store.go:89-113 | what a clean entry has unsaved arrived between the snapshot and the clear of its latest flush |
| FlushRuns.CleanIsSavedIff | kline/internal/store/store.go:89-113 | a clean entry equals its file if and only if those pushes do not change what the file says |
| FlushRuns.UndisturbedFlushSaves | kline/internal/store/file.go:99-123 | a successful flush of a key that no push lands in restores equality, whatever was lost before |
| FlushRuns.FailedSavesKeepFlag | kline/internal/store/file.go:113-116 | as long as every save of a dirty entry fails, it stays dirty |
| FlushRuns.ListsStayAscending | kline/internal/kline/candle.go:22-39 | lists in memory and on disk stay strictly ascending throughout a run |
| FlushRuns.NamesSurvive | kline/internal/store/store.go:55-136 | through every run entries keep the names configured for their keys, and files show these or blanks |
| FlushRuns.FinalFlushSavesIff | kline/cmd/server/main.go:112-117 | the shutdown flush, with no push to the key and no failed save of it meanwhile, leaves an entry saved exactly when it was dirty or saved already; an entry left clean by the race stays unsaved, and other keys may be pushed to or fail |
| FlushRuns.RacedRunIsValid | kline/internal/store/store.go:89-113 | a run in which a push lands between snapshot and clear |
| FlushRuns.RaceLosesThePush | kline/internal/store/store.go:103-113 | it ends with a clean flag on a candle the file lacks |
| Rest.ToCandles | kline/internal/rest/client.go:107-135 | parallel arrays become candles of seven fields in order, the other five empty; ragged arrays are an error, no times at all is not |
| Rest.ProjectSeesSevenFields | kline/internal/rest/client.go:117-131 | two candles are the same for REST exactly when time, open, high, low, close, volume and amount agree |
| Rest.IntervalsAreAsNamed | kline/internal/config/config.go:27-38 | the ten intervals and their lengths in terms of each other |
| Rest.ProjectUpsertAll | kline/internal/rest/bootstrap.go:136-139 | projecting to the REST fields commutes with a run of upserts |
| Rest.CatchUpFetchesSuffix | kline/internal/rest/bootstrap.go:168-178 | the resume point, left out of the request unless positive, and the newest-limit trim together fetch a suffix of the history |
| Rest.CatchUpRecoversIff | kline/internal/rest/bootstrap.go:124-139 | file plus catch-up is the history if and only if the fetch reaches the file's last candle, or misses only that one and it was current |
| Rest.CatchUpWithinLimitRecovers | kline/internal/rest/bootstrap.go:124-139 | with two candles in the file and at most limit candles after the resume point nothing is missing |
| Rest.ColdStartKeepsNewest | kline/internal/rest/bootstrap.go:181-186 | a cold start keeps exactly the newest limit candles, the open one included; the window asked for holds one more exactly when now is an open time; without a positive limit the window of two thousand is kept, and a window that would start at zero or earlier is not asked for |
| Recovery.ExchangeGrows | kline/internal/ws/handler.go:67-101 | under an ordered feed every candle but the newest of a moment is final |
| Recovery.MemoryIsPushed | kline/internal/ws/handler.go:67-101 | memory is the initial list with all accepted pushes upserted in order |
| Recovery.FileIsBehind | kline/internal/store/file.go:50-123 | at every moment of a gapless run the file is merely behind the exchange |
| Recovery.FileNeverShrinks | kline/internal/store/file.go:50-123 | a file never holds fewer candles than the list the live phase started from |
| Recovery.BehindLater | kline/internal/rest/bootstrap.go:104-187 | what is behind the exchange at one moment is behind it at every later one |
| Recovery.CrashAnywhereRecoversIff | kline/internal/rest/bootstrap.go:104-187 | after a crash at any step of the flush, the reloaded list plus catch-up is exactly the exchange history under the same exact condition |
| Recovery.RecoveryRestartsTheFeed | kline/internal/rest/bootstrap.go:104-187 | the recovered history is a fit start for the next live phase |
| Recovery.LoneCandleIsNotRefetched | kline/internal/rest/bootstrap.go:173-178 | a run whose file holds one candle: its revision, pushed but not flushed, is lost by the crash and not fetched again |
| Recovery.LongGapLosesCandles | kline/internal/rest/client.go:81-83 | for every positive limit, a gap longer than it that is not recovered |
| Bootstrap.MergeInto | kline/internal/rest/bootstrap.go:136-139 | the merge loop; the list it starts from, shared with the cache, is not written |
| Bootstrap.LoadExisting | kline/internal/rest/bootstrap.go:107-124 | an unreadable file counts as empty, missing names are filled in, and the cache shows it |
| Bootstrap.BootstrapPair | kline/internal/rest/bootstrap.go:104-152 | the whole life of a pair, with both error exits; a merge reaches the cache only once it is on disk |
| Bootstrap.CatchUpAsksFromResumePoint | kline/internal/rest/bootstrap.go:126-187 | which start time is asked for, when it is left out, and which candles of the answer are kept, for every list and limit |
| Bootstrap.PairEnds | kline/internal/rest/bootstrap.go:104-152 | each way a pair can end: its result, its entry and its file after a failed fetch, after a failed save and after success; no other entry changes |
| Pool.StepKeepsSafe | kline/internal/rest/bootstrap.go:39-99 | every step keeps: tokens equal the held slots and never exceed the workers, the loaded total is that of the successful pairs, the symbols marked invalid are exactly those an ended pair found missing |
| Pool.ScheduleKeepsSafe | kline/internal/rest/bootstrap.go:39-99 | so it is at every moment of every schedule, cancelled or not |
| Pool.RunningNeverExceedsWorkers | kline/internal/rest/bootstrap.go:33-62 | at every moment at most the configured number of pairs is running, one if none is configured, and another can be launched exactly while fewer are |
| Pool.SkippedIffFoundMissing | kline/internal/rest/bootstrap.go:63-76 | a pair is skipped exactly when an ended pair of its symbol was told that the contract does not exist |
| Pool.PoolNeverStuck | kline/internal/rest/bootstrap.go:45-93 | an unfinished pool that has not stopped launching can always move |
| Pool.SchedulesAreBounded | kline/internal/rest/bootstrap.go:45-93 | no schedule is longer than nine moves a pair and two |
| Pool.CompleteReturnsEverySlot | kline/internal/rest/bootstrap.go:58-62 | the semaphore is empty exactly when no launched pair is still running, in particular at the end |
| Confluence.OthersDoNotInterfere | kline/internal/rest/bootstrap.go:104-152 | steps of other pairs, also those between their temporary write and rename, leave a pair's entry, file, temporary file and status alone |
| Confluence.SkippingIsHarmless | kline/internal/rest/bootstrap.go:63-76 | a pair skipped because of the invalid mark would not have merged anything |
| Confluence.EveryScheduleIsSequential | kline/internal/rest/bootstrap.go:45-152 | each pair ends, in outcome, cache and file, as if it had run alone on the initial state |
| Confluence.StartUpIsConfluent | kline/internal/rest/bootstrap.go:45-152 | any two complete uncancelled schedules end in the same cache, the same files and the same total, time stamps aside |
| Confluence.LoadedIsTheSum | kline/internal/rest/bootstrap.go:83-99 | the reported total is the sum of what the pairs load when each runs alone |
| Interrupted.FilesSurviveAnyStop | kline/internal/rest/bootstrap.go:45-152 | stopped by a crash or cancelled at any step, also inside a save, start-up leaves every file as it found it or completely merged |
| Interrupted.StartUpRecoversIff | kline/internal/rest/bootstrap.go:104-187 | after a complete start-up the clean cache entry and the file both show exactly the history if and only if the fetch reached the file's last candle, or missed only that one and it was current |
| Interrupted.CutShortIsBehind | kline/internal/rest/bootstrap.go:45-152 | a start-up cut short leaves a file that is behind the same history and no less within reach |
| Interrupted.StartingAgainRecovers | kline/internal/rest/bootstrap.go:104-187 | wherever it stopped, the next complete start-up leaves cache and file showing the exchange's history |
| Lives.Pair.LivesGoOn | kline/cmd/server/main.go:69-117 | a life must be possible on the disk the lives before it left, and leaves its own |
| Lives.Pair.EveryStartUpRecovers | kline/cmd/server/main.go:69-117 | over any number of lives, dying during start-up or at any step of the live phase, every start-up that finishes leaves cache and file showing the history of that moment |
| Lives.CrashThenStartUpRecoversIff | kline/cmd/server/main.go:69-117 | after a crash at any step of a live run, cache and file of the next start-up show the history under the exact condition |
| Startup.PreloadSymbol | kline/cmd/server/main.go:155-171 | the inner preload loop |
| Startup.PreloadExistingFiles | kline/cmd/server/main.go:153-173 | the nested preload loops over the configured product |
| Startup.PreloadShowsFiles | kline/cmd/server/main.go:153-173 | afterwards each configured key shows its file and no other key is touched |
| Startup.PreloadedEntryIs | kline/cmd/server/main.go:153-173 | each configured pair has a clean entry that is its file with blank names filled in, or empty under its own names if there is none to read |
| Startup.PreloadIsRestart | kline/cmd/server/main.go:153-173 | preloading an empty cache gives exactly the state the live phase restarts from |
| Startup.PlanIsSeparate | kline/internal/rest/bootstrap.go:45-63 | pairs of a regular configuration share neither key nor file |
| Startup.PlanCoversTheProduct | kline/internal/rest/bootstrap.go:45-63 | the work is the whole product, symbol by symbol, each pair with its own path, wire spelling and key |
| Startup.PreloadFeedsThePool | kline/cmd/server/main.go:69-75 | every pair finds its file under its key when the pool starts |
| Startup.ConfigIsLaidOut | kline/internal/store/file.go:126-153 | flusher and start-up agree on where every pair lives, whatever name a snapshot carries |
| Startup.PoolKeepsKeys | kline/internal/rest/bootstrap.go:124-150 | no step of the pool adds or removes a key |
| Startup.StartUpHandsOver | kline/cmd/server/main.go:69-102 | any uncancelled start-up ends with the configured keys, all clean and equal to their files, from which every live run is sound |
| Startup.NamesMatchAfterStartUp | kline/internal/rest/bootstrap.go:114-150 | if no data file carries another pair's names, every entry ends start-up with the names its key was built from |
| Startup.NamesPassToTheNextStartUp | kline/internal/rest/bootstrap.go:114-119 | these names last through the life that follows, in cache and files, so the next start-up finds them |
| Startup.SymbolsWithBootstrapData | kline/cmd/server/main.go:247-274 | keeps, in order, the symbols some entry with a candle carries, or all of them if there is none |
| Startup.WithDataKeepsOrder | kline/cmd/server/main.go:258-268 | every symbol that belongs is kept as often as it is listed, in the order of the list, and nothing else |
| Startup.KeptIffOwnCandles | kline/cmd/server/main.go:247-274 | a symbol is kept exactly when one of its own intervals has a candle, provided entries carry the names of their keys |
| Startup.SubscriptionsPassTheGate | kline/internal/ws/handler.go:79-82 | a push for any configured symbol and interval passes the handler's gate |
| Tables.RecordIffSixNumbers | kline/internal/db/timescale_convert.go:23-61 | a candle has a record exactly when open, high, low, close, volume and amount are numbers, whatever else it carries, and the record holds each under its own name |
| Tables.ParsesIffSixNumbersEach | kline/internal/db/timescale.go:109-116 | a batch is refused exactly when one of its candles has something else in one of these six |
| Tables.Database.UpsertBatch | kline/internal/db/timescale.go:101-127 | all or nothing: one of the six values that is no number stops the batch before anything is sent, and only that makes it unparseable; an empty batch is no error |
| Tables.Database.LoadLatest | kline/internal/db/timescale.go:130-171 | a fresh list of the newest rows, reversed to ascending; nothing for a limit of zero or less; an error exactly if query, a row that is reached, or the iteration fails |
| Tables.ReverseCandles | kline/internal/db/timescale_convert.go:74-78 | the in-place swap loop reverses the list |
| Tables.AppliedOverrides | kline/internal/db/timescale.go:14-25 | a batch overrides the partition by its last candle per open time |
| Tables.LoadedIsNewest | kline/internal/db/timescale.go:130-171 | for any partition the answer is ascending, as long as limit and rows allow, and no row left out is newer |
| Tables.RoundTrip | kline/internal/db/timescale.go:101-171 | an ascending list upserted into an empty partition comes back as its own last candles |
| Tables.StoredKeepsCanonical | kline/internal/db/timescale_convert.go:23-72 | when the six values are written the way the table prints numbers only the five fields without a column are lost |
| Mirror.PersistCandle | kline/internal/store/store.go:178-185 | one goroutine's write: the row it leaves if it is accepted and its six values are numbers, and no change otherwise |
| Mirror.LandsIffSixNumbers | kline/internal/store/store.go:178-185 | a write reaches the table exactly when it is accepted and its six values are numbers |
| Mirror.RowIsLastLanded | kline/internal/store/store.go:83-85 | in any order of completions a row shows the write that reached it last, or its initial value |
| Mirror.AllSucceededAllPresent | kline/internal/store/store.go:83-85 | once all writes have succeeded no pushed open time is missing |
| Mirror.MemoryShowsLastIssued | kline/internal/store/store.go:55-86 | the cache meanwhile shows the last push |
| Mirror.TableFollowsMemoryIff | kline/internal/store/store.go:83-85 | a row agrees with the cache exactly when the write that reached it last carries the last push's record |
| Mirror.InOrderTableIsMemory | kline/internal/store/store.go:83-85 | if writes to a row finish in order, the row is the cached candle, projected |
| Mirror.OutOfOrderShowsOlder | kline/internal/store/store.go:83-85 | out of order the older push stays in the table for good |
| Gate.StepKeepsSafe | orderbook/internal/persistence/writer.go:50-110 | every step keeps: the flag is up exactly while the last call that won it owns the gate, snapshots arrive in that order, the destination shows the last to arrive |
| Gate.ScheduleKeepsSafe | orderbook/internal/persistence/writer.go:50-110 | so it is at every moment of every run, crashes included |
| Gate.OnlyTheOwnerWrites | orderbook/internal/persistence/writer.go:94-110 | the temporary file and the destination are touched only by the one owner |
| Gate.DestinationIsWhole | orderbook/internal/persistence/writer.go:94-110 | the destination is what was there first or one complete accepted snapshot |
| Gate.SuccessIsInPlace | orderbook/internal/persistence/writer.go:86-91 | a call that returns success has its own snapshot in place as it gives the gate back |
| Gate.FileSuccessIffLast | orderbook/internal/persistence/writer.go:94-110 | with a file behind the gate a call succeeds if and only if its snapshot is the one that reached the destination last |
| Gate.RedisFailureMayHaveLanded | orderbook/internal/persistence/redis_writer.go:72-78 | with Redis a call reported as failed may have put its snapshot in place |
| Order.NeverGoesBackIff | orderbook/internal/persistence/writer.go:50-92 | no continuation without new calls takes the destination back if and only if nothing that may land is older than what is shown and nothing still trying is older than anything else that may land |
| Order.ReachableNeverGoesBackIff | orderbook/internal/persistence/writer.go:50-92 | the same for every state reachable from the start, crashes included, with a file or with Redis behind the gate |
| Order.SubmitKeepsOrderedIff | orderbook/internal/persistence/writer.go:50-60 | what a caller can check before it submits to keep that condition |
| Order.CanLandBehind | orderbook/internal/persistence/writer.go:77-92 | a call still trying can always land behind any other that may land |
| Order.SingleCallerIsOrdered | orderbook/internal/persistence/writer.go:50-92 | a single caller with rising versions always meets the condition |
| Order.PersistedNeverGoesBack | orderbook/internal/persistence/writer.go:50-92 | so its snapshots are persisted in version order, whatever is skipped, cancelled, failed or crashed |
| Order.TwoCallersCanGoBack | orderbook/internal/persistence/writer.go:77-92 | a blocking call with an older snapshot can lose the race and then replace a newer one, with either sink |
| Writer.SnapshotWriter.constructor | orderbook/internal/persistence/writer.go:25-42 | a free gate and no call yet |
| Writer.SnapshotWriter.CompareAndSwap | orderbook/internal/persistence/writer.go:57 | sets the flag exactly if it had the expected value |
| Writer.SnapshotWriter.TryGate | orderbook/internal/persistence/writer.go:57-59 | one try for the flag is the protocol event of winning or missing the gate |
| Writer.SnapshotWriter.WriteTemp | orderbook/internal/persistence/writer.go:94-105 | encoding and the temporary file, fault by fault, each statement being its protocol event |
| Writer.SnapshotWriter.RenameTemp | orderbook/internal/persistence/writer.go:107-110 | the rename, and the removal after a failed one |
| Writer.SnapshotWriter.WriteOut | orderbook/internal/persistence/writer.go:94-120 | success exactly without a fault, what each fault leaves at the temporary and the destination path, spelled out, and all other calls untouched |
| Writer.SnapshotWriter.WriteSnapshot | orderbook/internal/persistence/writer.go:50-74 | starts the write in the background, or reports a finished context or a running write and changes nothing; its call is holding, cancelled or skipped in the protocol accordingly |
| Writer.SnapshotWriter.FinishBackground | orderbook/internal/persistence/writer.go:61-71 | the gate is given back whatever became of the write |
| Writer.SnapshotWriter.Pausing | orderbook/internal/persistence/writer.go:82 | while the blocking caller pauses, background writes end and other callers may take the gate |
| Writer.SnapshotWriter.Spin | orderbook/internal/persistence/writer.go:78-85 | the spin loop: it ends holding the gate or cancelled, after exactly the pauses the gate was held for |
| Writer.SnapshotWriter.WriteSnapshotBlocking | orderbook/internal/persistence/writer.go:77-92 | if it gets through its own write comes last and the gate ends free, otherwise only the others' doings remain; its result is the outcome of its call in the protocol |
| Writer.GetsThroughIff | orderbook/internal/persistence/writer.go:78-85 | it gets through exactly if the gate is free after some of its pauses, all before its deadline |
| Writer.StopsAtFirstFree | orderbook/internal/persistence/writer.go:78-85 | it waits no longer than it has to: it goes on from what the first pause that ends with a free gate left |
| Writer.PauseBrings | orderbook/internal/persistence/writer.go:50-74 | what a pause brings: another write starts only while the gate is free, and one that ends leaves at both places what its fault says |
| Sharding.ChunkSymbols | orderbook/internal/exchange/websocket.go:435-445 | the chunking loop cuts by position |
| Sharding.Start | orderbook/internal/exchange/websocket.go:98-104 | connection loops are numbered from one and cut the symbols thirty at a time |
| Sharding.CutIffPartition | orderbook/internal/exchange/websocket.go:435-445 | cutting by position is the one way to partition a list into full pieces and a shorter last one |
| Sharding.CollectSubscriptions | kline/internal/ws/manager.go:37-43 | the nested loops collect the product, one symbol after the other |
| Sharding.New | kline/internal/ws/manager.go:32-62 | connections are numbered from one and cut the product into pieces of the configured size, or of fifty if that is not positive |
| Sharding.SubscriptionCount | kline/internal/ws/manager.go:99-105 | the sum over the shards is the number of subscriptions |
| Sharding.ShardsPartitionTheProduct | kline/internal/ws/manager.go:37-62 | nothing is lost, doubled or reordered, the shards are as few as possible, and the count is symbols times intervals |
| Sharding.EachSubscribedOnce | kline/internal/ws/manager.go:37-62 | distinct symbols and intervals are subscribed once: no two places over all shards carry the same one |
| Sharding.PlaceOf | kline/internal/ws/manager.go:37-62 | the shard and the position at which each symbol and interval is served |
| Reconnect.Pow2Adds | orderbook/internal/exchange/websocket.go:195 | what doubling k times means |
| Reconnect.DelayClosedForm | orderbook/internal/exchange/websocket.go:170-195 | the k-th delay is the base doubled k times, cut off at the cap |
| Reconnect.DelayNeverShrinks | orderbook/internal/exchange/websocket.go:170-195 | delays of one outage never shrink |
| Reconnect.NoOverflowIff | orderbook/internal/exchange/websocket.go:191-195 | no delay leaves 64 bits, doubled or in nanoseconds, exactly when the cap fits |
| Reconnect.WSClient.RegisterConnection | orderbook/internal/exchange/websocket.go:296-300 | the id shows the new socket |
| Reconnect.WSClient.UnregisterConnection | orderbook/internal/exchange/websocket.go:302-308 | removes the entry only if it still shows this socket |
| Reconnect.WSClient.ConnectWithBackoff | orderbook/internal/exchange/websocket.go:169-197 | its waits and where it ends, for every course of dial failures and cancellations |
| Reconnect.WSClient.ReadLoop | orderbook/internal/exchange/websocket.go:247-269 | every depth frame gives one event, its own, in the order of the frames; frames that do not decode give none |
| Reconnect.WSClient.RunConnection | orderbook/internal/exchange/websocket.go:130-167 | its trace is that of the loop for every course of events; no socket it registered is left behind |
| Reconnect.TraceShowsEachAttempt | orderbook/internal/exchange/websocket.go:130-269 | that trace, attempt by attempt: how far the loop goes, one wait for a failure, and for a session its connect, the notice unless it is the first, the events of its depth frames in order, and its end |
| Reconnect.ReconnectsAreConnectsMinusOne | orderbook/internal/exchange/websocket.go:148-151 | the callback fires once less than the loop connects |
| Reconnect.NoticesAreWellPlaced | orderbook/internal/exchange/websocket.go:133-153 | it stands right behind every connect but the first, before any event of the new connection, and nowhere else |
| Reconnect.WaitsClosedForm | orderbook/internal/exchange/websocket.go:169-197 | in every run a wait with n waits right before it is the base doubled n times, cut off at the cap, so a connection restarts the count |
| Reconnect.RegisteredIffLive | orderbook/internal/exchange/websocket.go:296-308 | under any interleaving a socket is registered exactly if nothing since replaced it, removed that very socket, or closed all |
| Conn.KlineConn.Close | kline/internal/ws/conn.go:112-123 | no socket is open afterwards |
| Conn.KlineConn.SubscribeAll | kline/internal/ws/conn.go:157-172 | all subscriptions in order, or those before the first that fails |
| Conn.KlineConn.ReadLoop | kline/internal/ws/conn.go:199-227 | messages handed on in order, whether anything other than a failure was read first, and whether it ended in an error |
| Conn.ForwardedIsPrefix | kline/internal/ws/conn.go:199-227 | what is handed on is exactly the payloads before the first failure or the end of the context; the session had a message exactly if there is such a payload or one arrived as the context ended |
| Conn.KlineConn.Run | kline/internal/ws/conn.go:54-109 | its waits and messages for every course of events; no socket is left open whichever way it returns |
| Conn.RunGoesOnUntil | kline/internal/ws/conn.go:54-109 | how far the loop goes: one wait per failed attempt or broken session, and the messages of all sessions up to there in order |
| Conn.DelaysClosedForm | kline/internal/ws/conn.go:250-256 | from the start, and from each session in which something other than a failure was read first, the delays are 1, 2, 4, 8, 16, 32 and then 60 seconds |
| Conn.OneSecondIffReset | kline/internal/ws/conn.go:99-107 | a wait is one second exactly at the start and after a session in which something other than a failure was read first |
| DepthRest.FetchDepthSnapshot | orderbook/internal/exchange/rest.go:45-160 | at most three requests; what is retried, what is final, which waits are made, and when a cancelled wait ends it |
| DepthRest.RetriedIff | orderbook/internal/exchange/rest.go:56-150 | which answers are tried again, which are followed by a wait, and how long it is: as the header says or five seconds after a rate limit, two seconds otherwise |
| DepthRest.OutcomeIsDetermined | orderbook/internal/exchange/rest.go:56-160 | the answers and cancellations determine outcome and number of requests |
| DepthRest.FetchedIff | orderbook/internal/exchange/rest.go:56-160 | a snapshot is returned exactly if one of the first three answers is good and everything before it was worth retrying |
| DepthRest.SecondsHonouredIff | orderbook/internal/exchange/rest.go:168-171 | a number of seconds is honoured exactly up to the 64-bit limit |
| DepthRest.RetryAfterIs | orderbook/internal/exchange/rest.go:162-182 | what each header stands for: positive seconds as a wrapped 64-bit duration, a future date until it is due, the fallback otherwise |

## Left out

- Files.FileSystem.Load: whether a file can be read is a property of the disk; a read that fails now and then is not modelled.
- Confluence.StartUpIsConfluent: compares files without `updatedAt`, takes `now` as one value for the whole start-up, the fault of a save as a function of its path and the exchange's answer as a function of the request, the same in both schedules, and assumes that "contract does not exist" depends on the symbol alone and that no database is used.
- Rest.ColdStartKeepsNewest: covers intervals of fixed length; the code treats a month as thirty days.
- Rest.CatchUpRecoversIff: takes the exchange's answer to be the whole history from the start time, and the whole history when the client leaves the start time out; a server-side limit on one answer is not modelled.
- Recovery.CrashAnywhereRecoversIff: speaks about one key and a feed without gaps; websocket messages lost before the crash, and updates between a start-up's fetch and the first push, are not part of this model.
- Lives.Pair.EveryStartUpRecovers: the same, and a save of the pair's file at start-up does not fail in a life that finishes it.
- Startup.SymbolsWithBootstrapData: the dropped symbols are listed in configuration order; the code sorts them for a log line.
- Tables.RoundTrip: parsing and printing of numbers are arbitrary functions.
- Tables.Database.UpsertBatch: a batch is one transaction that the server accepts or rejects as a whole.
- Writer.SnapshotWriter.WriteSnapshotBlocking: the pauses are a finite list, and other callers act during them only; that the spinning writer ever gets the gate is not claimed.
- Order.PersistedNeverGoesBack: a Redis request has reached the server, or never will, by the time its call returns.
- Cache entries are values in a map rather than shared objects; the source never hands an entry out, so no aliasing is lost. Nil and empty lists are the same list.
- Paths are joined from plain elements; the cleaning of `.`, `..` and doubled slashes by the path library is not modelled.
- `FlushLoop`, tickers, pings and throttling pauses are steps or waits without durations; `ensureIntervalDirs` and creating directories are part of a save's possible faults.
- Recognising "contract does not exist" by its message text is part of the REST answer.
- Preloading from the database, publishing to Redis, and the Redis writer's own methods beside the gate they share with the file writer.
- The order book itself (`orderbook/internal/orderbook`) is not part of this model: its source is missing.
- HTTP, websocket, JSON, protobuf, configuration, logging and deployment.
- Index arithmetic in sharding is unbounded; list lengths near the machine limit are not modelled.
