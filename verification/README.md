# Verified models of the console's protocols

`cmd/tossctl` wraps a trading engine in a console and an HTTP daemon. Most of what can go wrong there is not in
one function body but between steps: a late answer about a client that has already been replaced, a wait on a
refresh that nobody will finish, a stop between two writes. These Dafny modules model those protocols and prove
what they keep over every interleaving and every run.

The source's objects are classes whose methods are its lock regions or its file operations. Each method's
contract equates the new state with a function of the old one. The theorems are about those functions: a `World`
holds the guarded fields and everything in flight, an `Event` is one lock region or one system call, `Run`
executes any sequence of events, and the lemmas quantify over all sequences. An event that cannot happen in a
state changes nothing. Instants are integers; 0 is Go's zero `time.Time`. `Prelude` holds the few declarations that the
modules share.

| files | what they model |
|---|---|
| `Attachment`, `AttachRuns`, `StrategyAttach`, `ConsolePump` | the seat of the strategy reader: generations, single-flight rate-limited redials, reports, the ticker |
| `LifecycleAttach`, `LifecyclePump`, `Text` | the seat of the position-policy client: what counts as an answer, commands, its own ticker |
| `SingleFlight`, `ReadCache`, `SnapshotCache` | the two caches: one source read at a time, nobody lost, TTLs, the buffer that is reused in place |
| `Scrub` | the record scrubber: line rewriting, atomic replacement, draining the replaced file |
| `MemoryLedger`, `MemoryStore` | the episodic memory: ledger, notes, two index files, a failure at any system call |
| `EngineReady`, `SurveySpawn`, `EngineProcess` | readiness of an engine whose pid may be reused, the survey spawn gate, recognising a process line |
| `Onboarding` | saving Open API credentials across a stop between any two steps |
| `WrapCounts` | the greedy folding of a row of counts |

## Where the code and its own promises part

Each of these is a lemma with the exact condition.

- The rate limit and both TTLs ask `IsZero`. A clock that reads the zero time switches them off for the next call,
  and only that clock does (`RateLimitNeedsARealStamp`, `CachesOnlyRealInstants`).
- `wrapCounts` counts the separator and the mark with `len`, which is bytes: 4 and 3 instead of 3 and 2 columns. So
  a line is folded past 76 columns before a mark and past 79 at the end, while the comment promises 78 and 80. The
  folding is the shortest under the rule the code applies, and it is the documented folding exactly when no line it
  makes stops in that gap (`FoldsAsDocumentedIff`), in which case it is shortest under the documented rule as well.
  `AnEightyColumnRowIsFolded` is a row that takes one line too many.
- `promote` substitutes the first match of `^status:\s*episodic\s*$` in the whole file, while the parser takes the last
  `status` field of the frontmatter. The file becomes canonical exactly when the match is in the frontmatter and no
  later line there sets the status (`PromotionTakesIffStatusLineIsFirst`, `AQuotedStatusStaysEpisodic`).
- Python's `splitlines` splits at U+0085, U+2028 and U+2029, which JSON leaves unescaped. Evidence that holds one tears
  its ledger line, and the promotion is always rolled back (`TornEvidenceIsRolledBack`). A note whose name or directory
  holds one is retained and not rolled back: the ledger can be loaded afterwards exactly when the name is plain
  (`RetainLoadsIffTheNameIsPlain`), and once it cannot, nothing is retained or promoted again
  (`ATornLedgerIsStuck`, `ATornNameStopsTheLedger`).
- Rolling back rewrites the ledger as it was loaded, so ledger lines with an unsafe source are dropped
  (`PromoteIsAllOrNothing` has the condition). Inside the roll-back the target is unlinked before the ledger is
  restored, and at that one point ledger and notes disagree (`ConsistentExceptInTheGap`). If the roll-back itself
  cannot rewrite the ledger they stay in disagreement exactly when the ledger had been replaced (`FailedRollback`).
- `write_ledger` leaves its temporary file behind when writing or renaming fails (`Store.WriteLedger`).
- A `Check` that overlaps a `Save` can answer ready before the save is complete, and can leave a token of the old
  credentials in the cache after it (`OverlappingCheckSaysReadyTooEarly`, `OverlappingCheckLeavesAnOldToken`). The
  answer is right exactly when nothing has been stored since the load nor since the marker was last cleared
  (`ReadyIsRightIff`); looking at the marker once more when loading would leave only a store after the load
  (`UnmarkedLoadIsRightIff`). Without a marker the token cache is right exactly when a save, or a probe that was
  apart, wrote it last (`NoMarkerMeansComplete`); a probe is apart exactly when no run behind it can end with the
  marker gone and the cache wrong (`LateProbeIsHarmlessIff`).
- A session file named like the profile flag is read back as a profile when no profile was given, and exactly then
  some console takes the engine for its own or misses its own (`ProfileRoundTrip`, `RecognisesItsOwn`).
- Scrubbing in two pieces equals scrubbing the whole only at a line boundary (`PiecesNeedABoundary`).

## Model

| member | source | states |
|---|---|---|
| StrategyAttach.StrategyRuntimeAttachment.constructor | cmd/tossctl/httpapi_strategy_attach.go:158-163 | the boot resolution, a reader and whether it is live, is seated as generation one and does not stamp the rate limit |
| StrategyAttach.StrategyRuntimeAttachment.Capture | cmd/tossctl/httpapi_strategy_attach.go:140-144 | a read leaves the lock with the seated reader, its generation and whether the seat is wanted |
| StrategyAttach.StrategyRuntimeAttachment.StrategyRuntimeConfigured | cmd/tossctl/httpapi_strategy_attach.go:113-117 | a presence query wakes even a seat that looks alive, and answers from before the wake |
| StrategyAttach.StrategyRuntimeAttachment.WakeUp | cmd/tossctl/httpapi_strategy_attach.go:166-177 | a wake starts an attempt unless one runs, the interval is not over or the daemon is ending; the whole new state |
| StrategyAttach.StrategyRuntimeAttachment.FinishAttempt | cmd/tossctl/httpapi_strategy_attach.go:180-215 | the end of an attempt whose resolution gave a reader and a live flag: who sits, who is pushed out, a line exactly when the seat was reported detached, never a detach line |
| StrategyAttach.StrategyRuntimeAttachment.Judge | cmd/tossctl/httpapi_strategy_attach.go:260-312 | field by field: the caller's own cancellation and news of an earlier occupant change nothing; any other error, a context error under a running caller included, fails and detaches the seat and wants a redial; an answer attaches it; a line exactly when the state flips |
| AttachRuns.StepKeepsInv | cmd/tossctl/httpapi_strategy_attach.go:60-90 | every lock region keeps the invariant that ties generations, states, ranks, clients, attempts and reports together |
| AttachRuns.Reachable | cmd/tossctl/httpapi_strategy_attach.go:158-312 | that invariant holds after boot and any interleaving |
| AttachRuns.SeatNumberNamesOneReader | cmd/tossctl/httpapi_strategy_attach.go:80-90 | reads that captured equal seat numbers, at any two moments of a run, captured the same reader |
| AttachRuns.OnlyTheSeatedReaderIsJudged | cmd/tossctl/httpapi_strategy_attach.go:274-312 | a report changes the state only when its reader sits there now and its caller did not cancel, and never touches reader, generation or attempt |
| AttachRuns.LateNewsCannotDetach | cmd/tossctl/httpapi_strategy_attach.go:119-137 | once an attempt seats a client, whatever follows, only a read begun after that seating can change the seat's state |
| AttachRuns.SeatOnlyImproves | cmd/tossctl/httpapi_strategy_attach.go:180-215 | once live the seat stays live, once occupied it is never empty again, generations never fall, and a seat not marked failed holds a live client |
| AttachRuns.ClosedExactlyOnce | cmd/tossctl/httpapi_strategy_attach.go:205-230 | every client that ever sat is the occupant or was handed to close exactly once, never both |
| AttachRuns.StepKeepsReports | cmd/tossctl/httpapi.go:234-238 | because the sentinel never reads successfully, a seat that is not failed stays live |
| AttachRuns.SingleFlight | cmd/tossctl/httpapi_strategy_attach.go:166-177 | attempts in flight are one while `trying` holds and none otherwise, in every interleaving |
| AttachRuns.AttemptsPerWindow | cmd/tossctl/httpapi_strategy_attach.go:166-177 | a window of any length holds at most length / interval + 1 attempts, for any clock that reads real instants, even one running backwards |
| AttachRuns.SpacedWindow | cmd/tossctl/httpapi_strategy_attach.go:169-169 | k attempts later is at least k intervals later |
| AttachRuns.RateLimitNeedsARealStamp | cmd/tossctl/httpapi_strategy_attach.go:169-169 | a stamp protects the following interval in every state if and only if it is not the zero time |
| AttachRuns.NextAttemptComesInTime | cmd/tossctl/httpapi_strategy_attach.go:166-177 | with wakes at most a gap apart and the previous attempt over, the next starts within interval + gap whatever interleaves |
| AttachRuns.ReportsFollowState | cmd/tossctl/httpapi_strategy_attach.go:238-312 | the announcements of any run are exactly the flips of its state, in order, and alternate; `attached` is always the negation of `failed` |
| AttachRuns.NoticesAreFlips | cmd/tossctl/httpapi_strategy_attach.go:286-311 | from any state that satisfies the invariant, a run adds one line per flip and no other |
| AttachRuns.HistoryGrows | cmd/tossctl/httpapi_strategy_attach.go:140-144 | a read in flight keeps what it captured; past generations and attempt stamps never change |
| AttachRuns.WhatBootSeats | cmd/tossctl/httpapi_strategy_attach.go:158-163 | boot seats nothing, the always-failing reader or a client as generation one, and only the client is attached |
| AttachRuns.ReadsLiveUntilTheyReport | cmd/tossctl/httpapi_strategy_attach.go:119-137 | a read of an occupied seat is in flight with what it captured, whatever else happens, until its own report takes effect |
| AttachRuns.WhatResolvingDoes | cmd/tossctl/httpapi_strategy_attach.go:180-215 | only a dialled client displaces an occupant, which is queued for closing; only an empty seat takes the always-failing reader; a failed resolution leaves the reported state alone |
| AttachRuns.ClosingLetsGo | cmd/tossctl/httpapi_strategy_attach.go:226-230 | closing lets the displaced client go once and leaves the seat alone |
| AttachRuns.NothingStartsAfterTheEnd | cmd/tossctl/httpapi_strategy_attach.go:166-177 | once the process's context has ended no attempt ever starts |
| ConsolePump.Pump | cmd/tossctl/console_strategy_attach.go:117-131 | the ticker loop performs one wake per tick while the context runs, stops at the first tick after it has ended and never starts for an interval that is not positive |
| ConsolePump.PumpRedials | cmd/tossctl/console_strategy_attach.go:117-131 | with ticks at most a gap apart a dead seat is redialled within interval + gap without any request |
| LifecycleAttach.EngineRemoteFailure | cmd/tossctl/console_lifecycle_attach.go:275-281 | looking at the first occurrence decides whether any occurrence of the phrase carries a reason |
| LifecycleAttach.CarriesReasonIff | cmd/tossctl/console_lifecycle_attach.go:269-281 | a text carries a reason if and only if the phrase, a colon and something that is not white space occur in it somewhere |
| Text.ContainsIff | cmd/tossctl/console_lifecycle_attach.go:255-259 | a text contains a phrase if and only if it is something, the phrase and something |
| LifecycleAttach.EndpointAnswered | cmd/tossctl/console_lifecycle_attach.go:255-267 | a rejected token is never an answer; a typed refusal or a remote failure with a reason is |
| LifecycleAttach.PositionPolicyLifecycleAttachment.constructor | cmd/tossctl/console_lifecycle_attach.go:95-100 | boot seats the client or the empty seat |
| LifecycleAttach.PositionPolicyLifecycleAttachment.Current | cmd/tossctl/console_lifecycle_attach.go:103-107 | a request captures the seated client, its generation and whether the seat is wanted |
| LifecycleAttach.PositionPolicyLifecycleAttachment.WakeUp | cmd/tossctl/console_lifecycle_attach.go:127-138 | the same single-flight rate limit as the strategy seat |
| LifecycleAttach.PositionPolicyLifecycleAttachment.FinishAttempt | cmd/tossctl/console_lifecycle_attach.go:141-161 | a failed resolution leaves the seat alone; a client replaces the occupant, which is handed to close |
| LifecycleAttach.PositionPolicyLifecycleAttachment.Judge | cmd/tossctl/console_lifecycle_attach.go:255-319 | the same with a wider notion of answer, spelled out: a rejected token is never one, a typed refusal and a remote failure with a reason are; every other error fails the seat and wants a wake |
| LifecycleAttach.ConsoleIsAWorld | cmd/tossctl/console_lifecycle_attach.go:71-92 | every run of the lifecycle console is a run of the shared seat machine, so its theorems hold of it |
| LifecycleAttach.LifecycleSeatIsSound | cmd/tossctl/console_lifecycle_attach.go:95-161 | the shared invariant holds of the lifecycle seat in every interleaving |
| LifecycleAttach.LateAnswersCannotDetach | cmd/tossctl/console_lifecycle_attach.go:288-319 | once a client is seated, only a request that asked after the seating can change the seat |
| LifecycleAttach.RefusalsNeverDisturb | cmd/tossctl/console_lifecycle_attach.go:209-319 | starting attached, a run of successes, engine refusals and cancellations never moves the seat, starts no attempt, owes no wake and prints nothing |
| LifecycleAttach.SentAtMostOnce | cmd/tossctl/console_lifecycle_attach.go:347-413 | in any run each call reaches the engine at most once |
| LifecycleAttach.SentToTheClientThatWasSeated | cmd/tossctl/console_lifecycle_attach.go:326-413 | a call goes to the client it captured, even if another has been seated since |
| LifecycleAttach.AskAdmitsIff | cmd/tossctl/console_lifecycle_attach.go:118-124 | a request gets to call if and only if a client sits and has the methods asked for; it then holds that client and generation; one that finds the seat wanted owes a wake |
| LifecycleAttach.TheRestIsShared | cmd/tossctl/console_lifecycle_attach.go:141-175 | attempts, closes and the end of the context are those of the shared machine |
| LifecycleAttach.PositionPolicyLifecycleAttachment.Apply | cmd/tossctl/console_lifecycle_attach.go:347-357 | one uninterrupted command: the seated client is called exactly once whatever it answers, an empty seat not at all; the whole new seat |
| LifecycleAttach.ApplyIsARun | cmd/tossctl/console_lifecycle_attach.go:347-357 | the command as events of the state machine leaves the same seat and the same one delivery, and owes nothing |
| LifecyclePump.Pump | cmd/tossctl/console_lifecycle_attach.go:187-203 | the loop looks at every tick and wakes when the look found the seat wanted, whatever happens between look and wake; it ends with the context |
| LifecyclePump.TakeTick | cmd/tossctl/console_lifecycle_attach.go:195-202 | one tick: the wake follows exactly when the look found the seat wanted |
| LifecyclePump.TickWakes | cmd/tossctl/console_lifecycle_attach.go:187-203 | after a tick that finds the seat wanted, either an attempt has started in time or the interval is not over |
| LifecyclePump.OwedWakeStartsIff | cmd/tossctl/console_lifecycle_attach.go:127-138 | the wake the pump owes starts an attempt exactly when the interval is over |
| LifecyclePump.LookOwesAWake | cmd/tossctl/console_lifecycle_attach.go:199-201 | whatever others do between look and wake, the pump owes its wake if and only if its look found the seat wanted |
| LifecyclePump.PumpRedials | cmd/tossctl/console_lifecycle_attach.go:187-203 | with ticks at most a gap apart and the seat wanted, the next attempt comes within interval + gap |
| SingleFlight.KeepsPromises | cmd/tossctl/httpapi_read_cache.go:49-80 | one read exactly while `refreshing` holds, each finished channel closed exactly once, every blocked waiter waits for the read in progress |
| SingleFlight.LandingWakesEverybody | cmd/tossctl/httpapi_snapshot.go:50-80 | when the read in progress lands nobody stays blocked |
| SingleFlight.WhereEverybodyIs | cmd/tossctl/httpapi_read_cache.go:49-80 | the one that leads reads, one that joins is blocked, one that leaves is nowhere, and a landing leaves nobody reading |
| ReadCache.TimedReadCache.Enter | cmd/tossctl/httpapi_read_cache.go:35-63 | in fields: a value within its TTL, else an error within its TTL, else a wait while a read is in progress, else a read; only the reader changes anything |
| ReadCache.TimedReadCache.Commit | cmd/tossctl/httpapi_read_cache.go:67-80 | in fields: a success is stored and served, a failure keeps the old value but stops it from being served, the stamp moves, the flight ends |
| ReadCache.OneReadAndNoLostWakeUp | cmd/tossctl/httpapi_read_cache.go:28-81 | the single-flight promises in every reachable state of the timed cache |
| ReadCache.NobodyIsLost | cmd/tossctl/httpapi_read_cache.go:35-80 | in every reachable state each call so far is in exactly one place: about to look, reading, waiting, or answered |
| ReadCache.CallsAreRemembered | cmd/tossctl/httpapi_read_cache.go:28-35 | a new call is about to look with the arguments it came with |
| ReadCache.LookingMovesOn | cmd/tossctl/httpapi_read_cache.go:35-63 | a call that looks is answered, waits for the read in progress or begins the read its own arguments are for |
| ReadCache.LookingAnswers | cmd/tossctl/httpapi_read_cache.go:36-48 | a call that looks within a TTL is answered what the fields hold |
| ReadCache.LandingAndLeaving | cmd/tossctl/httpapi_read_cache.go:50-80 | the reader is answered its own outcome, a waiter looks again when its channel is closed and is answered nothing when its own context ends |
| ReadCache.ReadsAreSpaced | cmd/tossctl/httpapi_read_cache.go:35-80 | consecutive source reads: the later is stamped before its predecessor, or at least the TTL that one earned after it, for any order of caller clocks |
| ReadCache.OneInstantOneRead | cmd/tossctl/httpapi_read_cache.go:28-81 | any number of requests with one real instant cost at most one source read |
| ReadCache.ServedIsTheLastRead | cmd/tossctl/httpapi_read_cache.go:36-80 | a value is served if and only if the most recent completed read succeeded with it less than a success TTL ago; never after a failure |
| ReadCache.RefusedIsTheLastRead | cmd/tossctl/httpapi_read_cache.go:36-80 | a cached error is served if and only if it is the most recent completed read's, less than an error TTL old |
| ReadCache.CachesOnlyRealInstants | cmd/tossctl/httpapi_read_cache.go:36-48 | the call that has just read is answered from the cache exactly when its instant is not the zero time |
| SnapshotCache.HttpApiSnapshotCache.HandOut | cmd/tossctl/httpapi_snapshot.go:46-46 | a caller gets a new array with the bytes |
| SnapshotCache.HttpApiSnapshotCache.Enter | cmd/tossctl/httpapi_snapshot.go:43-68 | a call is served a copy of the cached bytes if and only if it is not forced and there are any; otherwise it waits for the refresh in progress or starts one |
| SnapshotCache.HttpApiSnapshotCache.Resume | cmd/tossctl/httpapi_snapshot.go:58-63 | after the wait: a copy of the snapshot, or the last error |
| SnapshotCache.HttpApiSnapshotCache.Overwrite | cmd/tossctl/httpapi_snapshot.go:74-74 | the buffer is overwritten in place when it has room, and no array handed out changes |
| SnapshotCache.HttpApiSnapshotCache.Commit | cmd/tossctl/httpapi_snapshot.go:72-84 | a success replaces the snapshot, a failure keeps it, either ends the refresh; the refresher's copy is on record like any other, and the buffer is the old one or new |
| SnapshotCache.HoldersAreUndisturbed | cmd/tossctl/httpapi_snapshot.go:43-85 | over any sequence of lock regions every array handed out, the refreshers' own included, holds at the end the bytes it was handed out with and is not the buffer |
| SnapshotCache.OneRefreshAndNoLostWakeUp | cmd/tossctl/httpapi_snapshot.go:43-85 | the single-flight promises in every reachable state of the snapshot cache |
| SnapshotCache.NobodyIsLost | cmd/tossctl/httpapi_snapshot.go:43-85 | in every reachable state each call so far is in exactly one place |
| SnapshotCache.CallsAreRemembered | cmd/tossctl/httpapi_snapshot.go:35-43 | a new call is about to look, forced or not as it came |
| SnapshotCache.ForcedCallsSkipTheCache | cmd/tossctl/httpapi_snapshot.go:39-68 | a forced call that looks is answered nothing and waits or refreshes, whatever is cached |
| SnapshotCache.AnswersHaveASource | cmd/tossctl/httpapi_snapshot.go:43-85 | a look answers only patient calls, a resumed call has waited, and any other answer is the outcome of the refresh its caller lands |
| SnapshotCache.AnswersCome | cmd/tossctl/httpapi_snapshot.go:43-85 | a patient look after a success, a landing and a closed channel each answer their caller |
| SnapshotCache.GivingUpAnswersNothing | cmd/tossctl/httpapi_snapshot.go:53-55 | a waiter whose own context ends is over and answered nothing |
| SnapshotCache.LastSuccessIsServed | cmd/tossctl/httpapi_snapshot.go:43-85 | once a refresh has succeeded, every non-forced answer and every answer after a wait is the last success, whatever fails later |
| SnapshotCache.WaitersLearnTheFailure | cmd/tossctl/httpapi_snapshot.go:50-80 | before any success a waiter is told the error of the most recent refresh, never an empty one |
| Scrub.ScrubLines | cmd/tossctl/scrub_account_records.go:299-326 | the loop's output and three counts are the line-by-line scrub of the block |
| Scrub.OneLineIsScrubbed | cmd/tossctl/scrub_account_records.go:309-324 | a blank line is copied and not counted, a kept one copied and counted, a changed one replaced and counted, an undecodable one copied and counted as broken |
| Scrub.LinesMakeTheBlock | cmd/tossctl/scrub_account_records.go:301-308 | the lines are the whole block cut behind every newline, in order |
| Scrub.CountsAreOfTheLines | cmd/tossctl/scrub_account_records.go:309-324 | the three counts are the lines that are not blank, those changed and those undecodable |
| Scrub.OutputIsOfTheLines | cmd/tossctl/scrub_account_records.go:309-324 | the output is each line's own output in order; only rewritten lines differ |
| Scrub.UnchangedLinesStay | cmd/tossctl/scrub_account_records.go:313-319 | a block none of whose lines changes, torn ones included, comes out as it went in |
| Scrub.ScrubDistributes | cmd/tossctl/scrub_account_records.go:299-326 | scrubbing distributes over concatenation at a newline boundary, in output and all counts |
| Scrub.PiecesNeedABoundary | cmd/tossctl/scrub_account_records.go:402-446 | for all rules that keep lines and all tails, two pieces equal the whole if and only if the first is empty or ends in a newline |
| Scrub.LastLineEnd | cmd/tossctl/scrub_account_records.go:425-431 | only complete lines are taken from the tail, and all of them: no newline is left behind |
| Scrub.MoveCompleteLines | cmd/tossctl/scrub_account_records.go:420-444 | the complete lines of the tail are scrubbed and appended, or the round fails and the file has grown by at most a prefix of their scrub |
| Scrub.DrainReplacedTail | cmd/tossctl/scrub_account_records.go:402-446 | without an error the appended bytes are exactly the scrub of everything past the plan, once and in order, no partial line left; with one they lie between the scrubs of two line boundaries; bounded rounds; a writer that stops on a line end is drained, one that stops inside a line is never taken for finished |
| Scrub.DrainLooks | cmd/tossctl/scrub_account_records.go:402-446 | the loop over what its looks find, for any growing file: each failure is told as what it is |
| Scrub.OneLookGrows | cmd/tossctl/scrub_account_records.go:410-419 | a look finds what the writer appended before it |
| Scrub.LooksFollow | cmd/tossctl/scrub_account_records.go:410-419 | behind everything that earlier looks found |
| Scrub.NothingToRewrite | cmd/tossctl/scrub_account_records.go:268-297 | a plan that counts no rewrite would have copied the file byte for byte |
| Scrub.WholeScrub | cmd/tossctl/scrub_account_records.go:357-446 | published prefix and drained tail together are the scrub of the whole old file |
| Scrub.ReplaceScrubbed | cmd/tossctl/scrub_account_records.go:268-398 | success with a replacement: the path holds the scrub of all of the old file; a refusal before the rename changes nothing and is told as what it is; a size or time change refuses; a drain that fails leaves the published scrub in front |
| MemoryLedger.PromotionTakesIffStatusLineIsFirst | scripts/memory_index.py:213-221 | the substitution keeps every other field and makes the file canonical if and only if its first match, over however many lines, is in the frontmatter with no status set behind it |
| MemoryLedger.MatchedIff | scripts/memory_index.py:214-219 | what the pattern matches: a plain status line, or a bare one, blank lines and a line that says only episodic |
| MemoryLedger.AfterMatchIs | scripts/memory_index.py:214-219 | a match takes the blank lines behind it along and nothing else |
| MemoryLedger.PromotedTextIs | scripts/memory_index.py:213-225 | the first match of the whole text becomes one canonical line; what is before it, behind it and in the other part of the note is untouched; it fails exactly when there is no match |
| MemoryLedger.AQuotedStatusStaysEpisodic | scripts/memory_index.py:46-60 | a concrete note that is promoted and stays episodic in its file |
| MemoryLedger.LoadDropsNothing | scripts/memory_index.py:92-108 | loading a consistent ledger returns every record in it |
| MemoryLedger.RetainKeeps | scripts/memory_index.py:139-179 | for any failures a retain keeps ledger and notes consistent if and only if it wrote nothing or the note's name does not tear its line |
| MemoryLedger.RetainDoes | scripts/memory_index.py:139-179 | every retain: what it refuses, when it raises, and what it writes: every other loaded record in order and one with the note's own fields |
| MemoryLedger.AuthorsOnlyAdd | scripts/memory_index.py:130-136 | authors add notes under episodes/ and change nothing else |
| MemoryLedger.RecordOf | scripts/memory_index.py:149-158 | the new record holds each field of the note under its own name, is episodic and has no evidence |
| MemoryLedger.WithoutGoesByRecord | scripts/memory_index.py:172-174 | leaving out an id goes record by record and keeps the order |
| MemoryLedger.SafeOnesGoByRecord | scripts/memory_index.py:92-108 | skipping unsafe sources goes record by record and keeps the order |
| MemoryLedger.RetainLoadsIffTheNameIsPlain | scripts/memory_index.py:139-179 | past its refusals and ledger failures a retain leaves a ledger that can be loaded, and succeeds when the index can be built, if and only if directory and name hold none of the three separators |
| MemoryLedger.ATornLedgerIsStuck | scripts/memory_index.py:92-108 | a ledger that cannot be loaded stays as it is over every run |
| MemoryLedger.ATornNameStopsTheLedger | scripts/memory_index.py:111-127 | a valid note with one of the three separators in its directory or name is retained, raises, and nothing loads afterwards |
| MemoryLedger.ATornName | scripts/memory_index.py:111-127 | a concrete name that raises |
| MemoryLedger.PromoteKeeps | scripts/memory_index.py:182-258 | a promotion whose roll-back, if any, succeeds keeps ledger and notes consistent if and only if it does not happen or the substitution changes the deciding status line |
| MemoryLedger.PromoteRefuses | scripts/memory_index.py:182-221 | which promotions are refused and which raise before anything is written, in the source's order |
| MemoryLedger.PromoteEnds | scripts/memory_index.py:222-258 | past that it is done exactly when no call of its forward path fails and the evidence is plain, with a warning exactly when its source stays; else it has failed or its roll-back has |
| MemoryLedger.CommitKeepsIff | scripts/memory_index.py:222-234 | once the ledger names the target, ledger and notes agree if and only if the evidence does not tear its line and the deciding status line has changed |
| MemoryLedger.PromoteIsAllOrNothing | scripts/memory_index.py:222-248 | a promotion that does not happen leaves ledger and notes unchanged if and only if it stopped before writing or the ledger held no unsafe line |
| MemoryLedger.PromoteDoes | scripts/memory_index.py:222-258 | a promotion that happens moves one record to canonical/ under its note's own name, writes there the note's text with its first match substituted and the rest as it was, and touches nothing else |
| MemoryLedger.TornEvidenceIsRolledBack | scripts/memory_index.py:111-127 | evidence that would break its ledger line is never stored and leaves everything as it was |
| MemoryLedger.FailedRollback | scripts/memory_index.py:235-248 | after a roll-back that could not rewrite the ledger, ledger and notes agree if and only if the ledger had not been replaced |
| MemoryLedger.LedgerStaysSound | scripts/memory_index.py:92-258 | over every run from an empty ledger, whatever names, notes, evidence and failures, ids are unique, sources are safe and loading gives the whole ledger or raises; over every orderly run it does not raise, sources are unique, and each record names an existing note with its id and status |
| MemoryLedger.StepKeepsIff | scripts/memory_index.py:139-258 | one event keeps ledger and notes consistent if and only if it is orderly: no torn name written, no promotion past the deciding line, no failed roll-back with something to restore |
| MemoryLedger.RunsStayConsistentIff | scripts/memory_index.py:139-258 | ledger and notes are consistent after every event of a run if and only if every event is orderly |
| MemoryLedger.PlainRunsAreOrderly | scripts/memory_index.py:139-258 | runs are orderly when notes that the substitution matches change where their status is decided, retained names are plain and roll-backs can write |
| MemoryLedger.CanonicalIsForever | scripts/memory_index.py:139-258 | over every run from an empty ledger, whatever names, notes, evidence and failures, a canonical record and its note are never replaced, demoted or lost |
| MemoryLedger.RunsStayFiled | scripts/memory_index.py:139-258 | no run breaks unique ids, nor that episodic records name episodes and canonical ones canonical notes |
| MemoryStore.Store.WriteLedger | scripts/memory_index.py:111-127 | the ledger is replaced whole or not at all, and when the temporary file is left behind |
| MemoryStore.Store.LoadLedger | scripts/memory_index.py:92-108 | the loop keeps exactly the lines with a safe source, in order, and raises at the first line that does not parse |
| MemoryStore.Store.CollectRows | scripts/memory_index.py:326-349 | one row per record whose note is there and valid, in ledger order |
| MemoryStore.IndexedAre | scripts/memory_index.py:326-349 | row by row, in order, exactly the records whose note is there with all its fields, nothing sensitive and a known status |
| MemoryStore.Store.MakePlan | scripts/memory_index.py:182-221 | every refusal before the first write, in the source's order, for the first record with the id |
| MemoryStore.Store.StageIndex | scripts/memory_index.py:350-383 | both outputs are built under temporary names, touching nothing else |
| MemoryStore.Store.SwapIndex | scripts/memory_index.py:384-395 | the backup and published lists say exactly where each output is, whichever call fails |
| MemoryStore.Store.Rebuild | scripts/memory_index.py:326-412 | both index files are published or both are as they were; no temporary or backup file is left |
| MemoryStore.Store.RetainNote | scripts/memory_index.py:139-179 | the step-by-step retain equals its specification, leaves the old index when it fails, and is consistent at every intermediate point if and only if it wrote nothing or the name is plain |
| MemoryStore.Store.WriteTarget | scripts/memory_index.py:225-226 | the target is the only note touched, whole or torn |
| MemoryStore.Store.GoForward | scripts/memory_index.py:222-234 | it succeeds exactly when target, ledger and index all do, and passes only through the way points |
| MemoryStore.Store.RollBack | scripts/memory_index.py:235-248 | the target goes first, then the ledger is rewritten as it was loaded |
| MemoryStore.Store.PromoteRecord | scripts/memory_index.py:182-258 | the step-by-step promote equals its specification; a failure restores ledger, notes and both index files and leaves no file but a ledger temporary; it meets the gap exactly when it rolls back a replaced ledger |
| MemoryStore.ConsistentExceptInTheGap | scripts/memory_index.py:222-258 | at each point a promotion passes through, ledger and notes agree if and only if the ledger is still the old one or evidence and status line are in order; between unlinking the target and restoring the ledger they never do |
| MemoryStore.NotDoneIsNothing | scripts/memory_index.py:235-248 | on any store a run can leave, a promotion that is not done and whose roll-back can write has changed nothing |
| EngineReady.ReadEngineSignal | cmd/tossctl/engineready.go:223-249 | ready exactly for the marker's own pid with the marker's own token; absent exactly when an enumeration finds nobody, never when it fails |
| EngineReady.StepKeepsInv | internal/enginelock/enginelock.go:257-400 | no start, crash, hold, refresh, recovery, release, late or failed removal, or look makes a ready marker name a run that has not recovered |
| EngineReady.ReadyIsNeverBorrowed | cmd/tossctl/engineready.go:257-271 | whatever happens between the three reads, ready means the run alive under that pid when the token is read has finished recovery |
| EngineReady.ThePidAloneIsBorrowed | cmd/tossctl/engine.go:252-262 | with a reused pid the stale file still says ready about a live pid; the token is what refuses it |
| EngineReady.LookFindsIff | cmd/tossctl/engineready.go:223-271 | an engine that holds its marker is found ready if and only if the marker says so, the pid is enumerated and its instance can be read |
| EngineReady.AnEngineIsConfirmed | cmd/tossctl/engineready.go:58-88 | an engine whose writes work is waited for until its recovery is over, confirmed through every refresh, and no more once it is released |
| EngineReady.AStaleMarkerConfirmsNobody | cmd/tossctl/engineready.go:257-271 | a stale marker confirms nobody |
| EngineReady.AnInertHandleWritesNothing | internal/enginelock/enginelock.go:257-400 | an engine that could not write its first marker never writes one |
| EngineReady.OnlyAFinishedRecoveryPublishes | cmd/tossctl/engineready.go:58-88 | a recovery that fails or is cancelled publishes nothing |
| EngineReady.AwaitEngineReady | cmd/tossctl/engineready.go:339-377 | the verdict is the first deciding round's, and the wait is over after the cap |
| SurveySpawn.StepKeepsInv | cmd/tossctl/soakproc.go:142-193 | each step of a restart keeps what the thread inside the gate knows about live surveys |
| SurveySpawn.OneSurveyPerRecord | cmd/tossctl/engineready.go:466-483 | for boot and any number of presses interleaved, live surveys never exceed the initial count or one, no spawn overlaps a survey, boot signals nobody, and nobody signals the console |
| SurveySpawn.SpawnsOnAnEmptyRecord | cmd/tossctl/soakproc.go:142-193 | a spawn means every survey that was signalled, and any other, has gone, and nobody else is between looking and spawning |
| SurveySpawn.BootStartsASurvey | cmd/tossctl/soakautostart.go:142-151 | boot on an empty record starts one survey |
| SurveySpawn.BootLeavesASurvey | cmd/tossctl/soakautostart.go:142-151 | boot on a record with a survey leaves it alone |
| SurveySpawn.TheButtonWaits | cmd/tossctl/soakproc.go:156-176 | the button interrupts the survey it finds and does not go on while it lives, except to give up |
| SurveySpawn.TheButtonReplaces | cmd/tossctl/soakproc.go:170-182 | once the survey has gone the button prepares and starts one; a failed preparation starts none |
| SurveySpawn.FailuresStartNothing | cmd/tossctl/soakproc.go:142-182 | a failed enumeration, a refused signal or a failed spawn starts nothing |
| SurveySpawn.SpawnsAreCounted | cmd/tossctl/soakproc.go:180-182 | a spawn that works adds one survey and counts as an overlap exactly when it finds another |
| SurveySpawn.OthersAre | cmd/tossctl/soakproc.go:156-165 | a restart interrupts exactly those it found but the console, in order |
| SurveySpawn.WaitForExit | cmd/tossctl/soakproc.go:196-206 | true exactly when a probe before the deadline found the pid gone |
| SurveySpawn.RestartSoak | cmd/tossctl/soakproc.go:142-193 | it spawns if and only if its binary and the survey list were found, every other survey took its signal and left and the last steps worked; it stops at the first refused signal and waits only for those it has signalled |
| SurveySpawn.SignallingCollects | cmd/tossctl/soakproc.go:156-171 | the state machine's thread signals the same surveys, everybody found but the console, and awaits them all |
| EngineProcess.SplitProcessLine | cmd/tossctl/engineproc.go:398-411 | a pid that is accepted is positive and has a command line behind it |
| EngineProcess.SplitProcessLineIff | cmd/tossctl/engineproc.go:398-411 | a line is vouched for if and only if, trimmed, it is a positive number, a space and a command that is not blank |
| Text.TrimSpaceTakesSpace | cmd/tossctl/engineproc.go:398-411 | trimming takes white space off both ends, all of it and nothing else |
| Text.FieldsGoBySpace | cmd/tossctl/engineproc.go:417-428 | white space parts fields and only white space does |
| Text.OnlyDigitsRead | cmd/tossctl/engineproc.go:402-405 | only digits read as a number |
| Text.AtoiReadsSigns | cmd/tossctl/engineproc.go:402-405 | a sign in front of a decimal is read as one |
| EngineProcess.LooksLikeAnEngineIff | cmd/tossctl/engineproc.go:93-97 | what the process pattern asks of a command |
| EngineProcess.CommandConfigDir | cmd/tossctl/engineproc.go:417-428 | the loop finds the first field that names a profile in either spelling |
| EngineProcess.EnginePIDsForJournal | cmd/tossctl/engineproc.go:350-391 | the loop keeps, in order, the pids of the lines that prove ownership and nothing for a blank journal |
| EngineProcess.KeptIff | cmd/tossctl/engineproc.go:350-391 | a line contributes its pid if and only if it is vouched for, is an engine's command, and its directory or the default one cleans to the console's |
| EngineProcess.ProfileRoundTrip | cmd/tossctl/engineproc.go:291-300 | the command built from `engineArgs` parses back to its profile if and only if one was given or the session file is not named like the flag |
| EngineProcess.OwnCommand | cmd/tossctl/engineproc.go:93-97 | that command matches the console's own process pattern |
| EngineProcess.LineRoundTrip | cmd/tossctl/engineproc.go:398-411 | its process line splits back into pid and command |
| EngineProcess.RecognisesItsOwn | cmd/tossctl/engineproc.go:350-428 | for all consoles and among any other lines, the pid is kept exactly when the profile's directory, or the default one, is the console's journal directory, if and only if a profile was given or the session file does not pose as one |
| Onboarding.StepKeepsSound | cmd/tossctl/console_openapi.go:149-265 | every step of a save, and of a check whose caching probe is apart, keeps: no marker means complete |
| Onboarding.NoMarkerMeansComplete | cmd/tossctl/console_openapi.go:149-202 | over any saves stopped or failing after any step and any checks overlapping them, without a marker the stored credentials are audited and of a save that ran to its end, and the token cache is empty or theirs if and only if a save, or a probe that was apart, wrote it last |
| Onboarding.ApartRunsAreSound | cmd/tossctl/console_openapi.go:101-202 | runs whose caching probes are all apart keep both promises |
| Onboarding.NoWholeSaveNoReady | cmd/tossctl/console_openapi.go:101-147 | while the marker is down no check gets past it until a whole save has gone through |
| Onboarding.CheckInOnePiece | cmd/tossctl/console_openapi.go:101-147 | after any run a check that runs in one piece says ready only for stored, audited credentials of a completed save; its probe is always apart |
| Onboarding.LoadedIsCompletedIff | cmd/tossctl/console_openapi.go:101-147 | in any interleaving the credentials a check loads are audited and of a save that ran to its end if and only if nothing has been stored since the marker was last cleared; they are whenever the marker is absent at the load |
| Onboarding.ReadyIsRightIff | cmd/tossctl/console_openapi.go:101-147 | in any interleaving a ready answer is right if and only if nothing has been stored since the load nor since the marker was last cleared |
| Onboarding.UnmarkedLoadIsRightIff | cmd/tossctl/console_openapi.go:101-147 | a check that also finds the marker absent at its load is right if and only if no save stores anything before it answers |
| Onboarding.ClearedIsTheLastCompleted | cmd/tossctl/console_openapi.go:149-202 | in any run the last clear of the marker belongs to the last save that ran to its end |
| Onboarding.LateProbeIsHarmlessIff | cmd/tossctl/console_openapi.go:101-147 | a probe is apart (it caches nothing, or a token of the stored credentials, or the marker cannot go before a save empties the cache) if and only if every run behind it with apart probes ends complete once the marker is gone |
| Onboarding.OverlappingCheckSaysReadyTooEarly | cmd/tossctl/console_openapi.go:101-147 | a check overlapping a save can say ready for credentials neither audited nor done |
| Onboarding.OverlappingCheckLeavesAnOldToken | cmd/tossctl/console_openapi.go:101-202 | a check overlapping a save can leave the old credentials' token behind |
| Onboarding.OpenAPISeam.Save | cmd/tossctl/console_openapi.go:149-202 | from any store a run can leave: ready exactly when every step worked, each other stop told as what it is, and otherwise precisely the steps of a save that stops there |
| Onboarding.OpenAPISeam.StoreAll | cmd/tossctl/console_openapi.go:185-201 | the lasting steps in order, each answer for the first that fails |
| Onboarding.OpenAPISeam.FinishStored | cmd/tossctl/console_openapi.go:192-201 | what is left once the credentials are stored: empty the cache, audit, clear the marker, stopping at the first failure |
| Onboarding.Classify | cmd/tossctl/console_openapi.go:299-323 | accepted is ready, refused is rejected, anything else unavailable |
| Onboarding.CheckReads | cmd/tossctl/console_openapi.go:101-147 | a check is ready exactly with a readable absent marker, readable credentials that are there, and their acceptance |
| Onboarding.ProbesCache | cmd/tossctl/console_openapi.go:101-147 | its probe leaves a token of the loaded credentials, if it leaves any |
| Onboarding.StopsLeaveEverything | cmd/tossctl/console_openapi.go:149-202 | a stop leaves everything lasting as it is |
| WrapCounts.WrapCounts | cmd/tossctl/candidatebands.go:122-146 | the loop renders a folding that obeys the applied rule with the fewest lines of all that do |
| WrapCounts.GreedyIsFewest | cmd/tossctl/candidatebands.go:122-146 | no order-preserving folding that obeys a sensible width rule uses fewer lines than the greedy one |
| WrapCounts.FoldingKeepsEveryPart | cmd/tossctl/candidatebands.go:129-145 | the lines of a folding hold every part once and in order |
| WrapCounts.JoinReadsInOrder | cmd/tossctl/candidatebands.go:122-145 | a line reads from its first part to its last, one separator between any two |
| WrapCounts.LinesFitTheReport | cmd/tossctl/candidatebands.go:113-121 | a line is its indent, its parts and its mark, and one with several parts fits the report with the mark included |
| WrapCounts.RulesAgreeOutsideTheGap | cmd/tossctl/candidatebands.go:113-141 | the applied and the documented rule differ on a line if and only if its width is in the gap that byte counts open |
| WrapCounts.FoldsAsDocumentedIff | cmd/tossctl/candidatebands.go:113-146 | for rows of any length the code folds as documented if and only if no line it makes stops in the gap |
| WrapCounts.FewestUnderTheDocumentedRule | cmd/tossctl/candidatebands.go:113-146 | when no line the code makes stops in the gap, the result is shortest under the documented eighty columns too |
| WrapCounts.DifferentFoldingsOfOneLength | cmd/tossctl/candidatebands.go:122-146 | rows that stop in the gap, are folded differently and are shortest all the same |
| WrapCounts.OneLineUpTo79 | cmd/tossctl/candidatebands.go:111-141 | a row of several parts stays on one line exactly up to 79 columns; the documented rule would allow 80 |
| WrapCounts.AnEightyColumnRowIsFolded | cmd/tossctl/candidatebands.go:111-146 | a concrete row of eighty columns that is folded |

## Left out

- Seat numbers and channel numbers are unbounded; the source's `uint64` generation would wrap.
- `time.Sub` saturates and Go compares monotonic readings; instants here are plain integers.
- The order in which lines are printed uses a second lock; the order proved is that of the decisions.
- A source or a resolution that panics, and a process killed inside `_rebuild`'s own clean-up.
- `Read`, `Get`, `load` and the lifecycle queries are not one method each: their lock regions are, and the worlds interleave them. `Apply` is also a method.
- AttachRuns.NextAttemptComesInTime: needs a previous stamp that is a real instant and a clock that does not run backwards.
- AttachRuns.AttemptsPerWindow: excludes attempts stamped with the zero time, for which the bound is false.
- EngineReady.ReadyIsNeverBorrowed: assumes that one pid never gets the same instance token twice; the token itself does not mention the pid.
- EngineReady.AwaitEngineReady: each sleep lasts at least the poll interval.
- SurveySpawn.RestartSoak: the messages are left out.
- SurveySpawn.OneSurveyPerRecord: the enumeration and the liveness probe meet their documented contracts, and nobody else starts a survey on the record.
- Onboarding.NoMarkerMeansComplete: saves run one at a time, without environment credentials.
- Scrub.ReplaceScrubbed: nobody but the drain appends to the new file, and a modification time is the flag `touched`; the preview run that only counts is not modelled.
- Scrub.ScrubDistributes: the per-line rewrite and the blank test are parameters; registering known accounts and the refusals before planning are left out.
- MemoryLedger.PromoteKeeps: symbolic links, path resolution and the lock file are left out; text with secrets is a parameter.
- MemoryLedger.LedgerStaysSound: loadability, unique sources and notes that agree with their records are for orderly runs, because in others they fail; `RunsStayConsistentIff` shows that orderly is exact, and `PlainRunsAreOrderly` says what authors and failures have to keep to.
- WrapCounts.FewestUnderTheDocumentedRuleIff: its condition compares with the documented optimum; the test on the row itself, `FoldsAsDocumentedIff`, is sufficient for shortness and not necessary (`DifferentFoldingsOfOneLength`).
- MemoryLedger.PromotionTakesIffStatusLineIsFirst: a note's lines end in newlines; names that are not valid UTF-8 are left out too.
- MemoryStore.Store.Rebuild: the clean-up calls of `_rebuild` and the unlink of a target are taken to succeed; the database's text is its rows.
- EngineProcess.RecognisesItsOwn: paths hold no white space and the binary path ends in `tossctl`; `strconv.Atoi`'s range is left out.
- Dialling, HTTP, `pgrep`, signals, `/proc` and SQLite are parameters of the events.
- `search`, `check_memory`, configuration saves (`rememberSoakApproval`), boot notes, the recovery observer and the parsing of `/proc` would only add easy members.
