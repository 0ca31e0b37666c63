# Gateway protocols: a Dafny model

A model of the state machines inside an AI gateway's Go backend, with proofs of what they promise over whole
runs. Each module follows one component:

- `WorkerPool`: the bounded channel-test pool (dispatcher, workers, closer and collector over two unbuffered
  channels, cancellable at any point) as interleaved steps.
- `GoogleRegistration`: concurrent first logins with one Google subject, and the retry loop of one login as a
  method whose accesses form a run of that machine.
- `RateLimiter`, `InMemoryRateLimiter`: the sliding-window limiter with its recency list and idle-key eviction, on
  values and in place (a store of entries that own linked queues, and a list of the same entries).
- `HomepageStats`: several processes sharing one expiring Redis cell, each with a snapshot and a failure backoff.
- `UpstreamModels`: detecting, staging, partly applying and ignoring upstream model changes.
- `MultiKey`: index-keyed status maps of a multi-key channel, coupled to its automatic disable and restore.
- `BodyStorage`, `StorageAccounting`: two implementations of one request-body storage, and the global usage counters.
- `ObservationLimiter`: the four-scope lease limiter.
- `MidjourneyRefund`: racing polling passes, the compare-and-set on a task's status, and the refund.
- `QuotaMath`: saturating conversions over reals, infinities and NaN, and the settlement of a channel test.

A protocol is a `State`, a `Step`, the predicate `Enabled` and the function `Apply`; `Exec` (or `Run`) folds a
sequence of steps, and the main lemmas speak about every sequence that `Exec` accepts. Code that changes things
in place is a class, and its methods are proved against the functions of the same module.

## Where the code does less than it seems to promise

Each of these is stated with the exact condition under which the property holds.

- Deleting disabled keys when every key is automatically disabled empties the key list in memory only. The update
  then reads the stored keys back: they all count as enabled again, under a channel that stays disabled. A channel
  stays in step with its keys throughout a run if and only if no action of the run does this
  (`ChannelFollowsKeysIff`, `DeletingEveryKeyRevivesThem`).
- Idle-key eviction is unobservable for a key if and only if the key's window is not longer than the expiration, or
  eviction is off (`EvictionUnobservableIff`).
- An answer from the homepage's memory can be almost two cache lifetimes old, because the Redis re-check inside the
  refresh section restamps an aged payload; the bound is tight (`ServedAges`, `MemoryAgeBoundIsTight`).
- Upstream model names that start with `regex:` turn into rules when they are ignored, and drop a rule of the same
  text when they are added. A partial application is reproduced by the next detection if and only if the selection
  is safe in three ways that can be decided beforehand (`PartialApplyIsStableIff`), and applying everything settles
  if and only if no dropped rule was the only one ignoring some open name (`ApplyingEverythingSettlesIff`). Each way
  fails somewhere (`IgnoringARuleName`, `IgnoringARuleIgnoresMore`, `AddingARuleUnignores`).
- Memory and disk storages differ exactly in an empty read at the end of the body, in the two seek origins that only
  a Linux file knows, in seeks beyond what the file system accepts, in a new reader after the cache cleaner removed
  the file, and in a reader used after it was closed (`TracesAgreeIff`, `TellingCalls`).
- The disk usage counters lose track of a file when a body storage is closed whose file the cleaner has already
  removed and counted. They are exact throughout a run if and only if this, or a reset, does not happen while files
  are counted (`DiskCountersExactIff`, `CleanedStorageIsCountedTwice`).
- A Midjourney task is refunded at most once if and only if every report about an unfinished task carries the
  FAILURE status exactly when it carries a fail reason (`NeverRefundsTwiceIff`); an item listed twice in one response
  also breaks it (`RepeatedItemRefundsTwice`).

One further gap lies in a defensive branch: the homepage's backoff holds nothing back after a marshalling failure
without a snapshot (`BackoffFailsExactlyWithoutAnswer`, `MarshalFailureDefeatsBackoff`). Marshalling a response of
integers and strings does not fail, so the spacing of `AggregatesAreSpaced` is the one to expect.

## Model

| member | source | states |
|---|---|---|
| `WorkerPool.TestChannelForHealthCheck` | controller/channel-test.go:920-964 | One channel's tallies: nothing when cancelled; otherwise tested once, failed iff the test or the response time is bad, disabled iff banning is allowed and warranted, enabled iff an automatically disabled channel recovered |
| `WorkerPool.HealthSummaryMeans` | controller/channel-test.go:929-960 | A test fails iff the upstream erred or answered too slowly while automatic disabling is on; a channel is disabled iff it is enabled, allows it, and the error or the delay warrants it; only an automatically disabled channel is enabled, on a success without local error |
| `WorkerPool.HealthChecksAreWellFormed` | controller/channel-test.go:1008-1011 | Outcomes built from health checks of any channels, skipped ones included, are well counted |
| `WorkerPool.NormalizeConcurrency` | setting/operation_setting/monitor_setting.go:65-73 | The pool size is between 1 and the maximum, keeps every value in that range and caps larger ones |
| `WorkerPool.LifecycleKept` | controller/channel-test.go:991-1041 | Channels are closed in order, and only by the goroutine that owns them: the results channel only after every worker returned |
| `WorkerPool.ProgressKept` | controller/channel-test.go:1043-1055 | The progress reports stay 0, 1, ... without gaps, one per counted result until a cancellation |
| `WorkerPool.AccountingKept` | controller/channel-test.go:1004-1051 | Workers send only the expected result of their channel, or an empty one after a cancellation, and the collector holds their count and sum |
| `WorkerPool.ExclusiveKept` | controller/channel-test.go:993-1036 | No channel is held by two workers, delivered twice, or held and delivered |
| `WorkerPool.CoveredKept` | controller/channel-test.go:993-1036 | Every channel handed out is held, delivered or dropped by cancellation: none gets lost |
| `WorkerPool.TestsKept` | controller/channel-test.go:1000-1013 | Tests are started once, for testable channels only, never for a dropped one, and what a worker sends is the outcome of its channel, or nothing if the test saw the cancellation |
| `WorkerPool.InvAlways` | controller/channel-test.go:969-1057 | All of these hold in every state of every interleaving |
| `WorkerPool.NoSendOnClosedResults` | controller/channel-test.go:1013-1041 | Once the results channel is closed all workers returned, and no send on it or second close is possible |
| `WorkerPool.BoundedParallelism` | controller/channel-test.go:987-1025 | At most min(concurrency, total) distinct channels are in flight, each in one worker |
| `WorkerPool.ParallelismIsUsed` | controller/channel-test.go:987-1036 | That many can be in flight: min(concurrency, total), one for a concurrency below one |
| `WorkerPool.PausesFollowDeliveries` | controller/channel-test.go:1013-1021 | With a request interval a worker pauses exactly once after each delivered result, without one never |
| `WorkerPool.SomeStepEnabled` | controller/channel-test.go:987-1056 | A witness step, other than a cancellation, for every state of the invariant that is not finished |
| `WorkerPool.DeadlockFree` | controller/channel-test.go:987-1056 | In every reachable state all goroutines returned or one of them can move |
| `WorkerPool.MeasureDecreases` | controller/channel-test.go:987-1056 | Every step of every goroutine uses up a natural-number measure |
| `WorkerPool.EveryRunIsFinite` | controller/channel-test.go:969-1057 | No schedule is longer than 6 * total + workers + 4 steps |
| `WorkerPool.TotalOfPermutation` | controller/channel-test.go:1043-1051 | Results of the same channels in any order add up to the same summary |
| `WorkerPool.UncancelledRun` | controller/channel-test.go:969-1057 | A finished run without cancellation tested each testable channel exactly once and no other, returns the per-channel sum and reported 0, 1, ..., total |
| `WorkerPool.ScheduleIndependent` | controller/channel-test.go:969-1057 | Any two uncancelled schedules give the same summary, the same reports and the same results as a multiset |
| `WorkerPool.NothingStartsAfterCancel` | controller/channel-test.go:996-1011 | From a cancellation on no test is started and no progress reported; a channel no worker had looked at is never tested or delivered, and is dropped if it was handed out |
| `WorkerPool.TalliesAlways` | controller/channel-test.go:1043-1057 | At any moment of any run, cancelled or not: tested = succeeded + failed, disabled <= failed, disabled + enabled <= tested, reports are a prefix of 0, 1, ..., and what was handed out is delivered or dropped at the end |
| `WorkerPool.TalliesAreSums` | controller/channel-test.go:1043-1051 | At any moment each of the five tallies is the sum over the delivered results, each of which is its channel's outcome unless the test was interrupted |
| `WorkerPool.HealthCheckTallies` | controller/channel-test.go:1062-1087 | So the tallies of a pool of health checks are consistent at any moment of any run, with nothing assumed of the channels |
| `WorkerPool.EveryTestableChannelIsTested` | controller/channel-test.go:1008-1011 | An uncancelled pool of health checks has tested as many channels as are neither nil nor manually disabled |
| `GoogleRegistration.ClaimHistoryKept` | model/external_identity_claim.go:45-76 | Under the unique index a subject is never claimed again before its claim was released, and the table reflects the history |
| `GoogleRegistration.CreationsAttributedKept` | controller/oauth.go:648-668 | Each account of this path was created by one callback of that subject, under an id used by no earlier claim |
| `GoogleRegistration.CallbackOKKept` | controller/oauth.go:615-685 | Attempts, transactions, finalizations and attributions of one callback stay within its phase |
| `GoogleRegistration.CallbackHistoryKept` | controller/oauth.go:611-685 | A callback holds or returns only a user that was the claimed owner of its own subject, and its attempt and transaction counts stay in step |
| `GoogleRegistration.InvAlways` | controller/oauth.go:604-686 | These invariants hold in every interleaving with other callbacks, deletions, binds and releases |
| `GoogleRegistration.ArrivalIsInitial` | controller/oauth.go:604-608 | Any set of arriving callbacks over a table without Google claims is a start state |
| `GoogleRegistration.AtMostOneAccountPerClaim` | controller/oauth.go:587-668 | A second account for a subject needs a release in between; an account created here stands in the history under its callback, and its claim is in force unless released after that very entry |
| `GoogleRegistration.SuccessfulCallbacksAgree` | controller/oauth.go:587-686 | All successful callbacks of one subject, and the one that created the account, name the same user, who owns the claim |
| `GoogleRegistration.OneCreatorPerSubject` | controller/oauth.go:655-668 | Of any two callbacks of a subject at most one creates, finalizes and attributes an account |
| `GoogleRegistration.BoundForOwner` | controller/oauth.go:616-685 | With an owner in place, each step of a callback that created nothing brings it closer to returning that owner, or refusing it if deleted, or fails in the preparation of an account |
| `GoogleRegistration.LaterAttemptsLandOnTheOwner` | controller/oauth.go:595-602 | As soon as the subject has an owner, and while it stays as it is and reads succeed, a callback that is looking up, registering or re-reading creates nothing and after at most two more steps returns that owner, or refuses it if deleted, whatever the others do; one preparing an account may only fail in the preparation instead |
| `GoogleRegistration.CommitGivesOwner` | controller/oauth.go:652-657 | A commit makes a new, undeleted account the owner of the subject and changes no other account |
| `GoogleRegistration.EndsIff` | controller/oauth.go:616-685 | One step ends a callback in a given answer iff the state and the access are the ones that call for it: a live owner read, a deleted owner read, a failed read, each preparation failure, or a failed transaction that may not be retried |
| `GoogleRegistration.EveryAnswerHasItsCause` | controller/oauth.go:616-685 | In every run each answer has such a cause: a user returned without being created owned the subject, undeleted, when it was read |
| `GoogleRegistration.RetryIff` | controller/oauth.go:673-704 | A failed transaction is tried again iff it deadlocked (MySQL 1213 or PostgreSQL 40P01), no owner was found and attempts are left |
| `GoogleRegistration.AttemptsFollowDeadlocks` | controller/oauth.go:602-685 | In every run a callback opens one transaction per attempt, and a further attempt only after a deadlock |
| `GoogleRegistration.BlankSubjectFails` | controller/oauth.go:605-608 | A blank subject fails at once and for good, without a transaction |
| `GoogleRegistration.EachCallbackIsBounded` | controller/oauth.go:602-686 | At most three transactions per callback; a failed callback leaves no account; a created account that is returned was finalized and attributed exactly once |
| `GoogleRegistration.Database.Interfere` | controller/oauth.go:616-686 | Other requests' steps extend the run and leave this callback's progress alone |
| `GoogleRegistration.OwnerLogin` | controller/oauth.go:617-626 | The lookup logs into the owner, refuses a deleted one, fails on a read error and goes on only when there is none, as the machine does |
| `GoogleRegistration.PrepareAccount` | controller/oauth.go:628-648 | Registration switch and email check end the callback or let it register, as the machine does |
| `GoogleRegistration.RegisterAccount` | controller/oauth.go:653-668 | A commit is possible only while the subject is free; then the account is finalized, attributed and returned, otherwise the cause is kept |
| `GoogleRegistration.FindOrCreateGoogleUser` | controller/oauth.go:604-686 | Whatever the others do, the retry loop is a run of the machine and answers what the machine records, so the run theorems hold of it |
| `RateLimiter.DropExpiredIsSuffix` | common/rate-limit.go:45-53 | The removal loop drops a prefix, all of it outside the window, and stops at the first entry inside |
| `RateLimiter.RemoveExpiredKeepsTheWindow` | common/rate-limit.go:35-53 | With both shortcuts the loop keeps exactly the entries inside the window, in order |
| `RateLimiter.AfterRequestConsistent` | common/rate-limit.go:129-155 | A request keeps the store and the recency list in bijection, the list newest first and every window ordered |
| `RateLimiter.TickDeletesExactlyTheExpired` | common/rate-limit.go:102-127 | The tail walk that stops early deletes exactly what a full scan would, and keeps the rest in order |
| `RateLimiter.RequestAgreesWithLog` | common/rate-limit.go:129-155 | A window that is the tail of the log admits exactly what counting in the whole log admits |
| `RateLimiter.InvAlways` | common/rate-limit.go:102-155 | In every run each tolerated key's window is the tail of its log, and the structures are consistent |
| `RateLimiter.AdmissionFollowsTheLog` | common/rate-limit.go:129-155 | In every run a request is admitted iff fewer than the limit were accepted in the last `duration` seconds of the whole history |
| `RateLimiter.EvictionVisible` | common/rate-limit.go:102-127 | For each key whose window exceeds the expiration, a run in which eviction lets a request through that the log refuses |
| `RateLimiter.EvictionUnobservableIff` | common/constants.go:215-216 | Eviction is unobservable in every run iff the window is not longer than the expiration or eviction is off |
| `RateLimiter.ConsistentAlways` | common/rate-limit.go:63-155 | Store, list and windows are consistent after every run |
| `InMemoryRateLimiter.RequestQueue.Append` | common/rate-limit.go:22-33 | The linked chain grows by one timestamp at its tail |
| `InMemoryRateLimiter.RequestQueue.Clear` | common/rate-limit.go:55-60 | The chain becomes empty |
| `InMemoryRateLimiter.RequestQueue.Unlink` | common/rate-limit.go:45-53 | One round of the loop takes the head off a chain and keeps the tail |
| `InMemoryRateLimiter.RequestQueue.RemoveExpired` | common/rate-limit.go:35-53 | In place, the chain becomes the window the value model keeps |
| `InMemoryRateLimiter.RateLimitEntry.Touch` | common/rate-limit.go:144-145 | A known key's entry forgets what left the window, in its own queue, and notes the activity |
| `InMemoryRateLimiter.RateLimitEntry.Admit` | common/rate-limit.go:149-152 | Admits iff the queue is shorter than the limit, and then appends |
| `InMemoryRateLimiter.TouchIn` | common/rate-limit.go:143-147 | Touching one entry of a store leaves all other entries and their queues intact and unchanged |
| `InMemoryRateLimiter.AdmitIn` | common/rate-limit.go:149-152 | Admitting through one entry leaves all others intact and unchanged, and entries still share no object |
| `InMemoryRateLimiter.AddTo` | common/rate-limit.go:136-142 | A new entry with an empty queue shares no object with the others |
| `InMemoryRateLimiter.EvictFrom` | common/rate-limit.go:122-125 | An evicted entry leaves the store, its queue is released, and the rest stays as it was |
| `InMemoryRateLimiter.ListsWithout` | common/rate-limit.go:146 | Taking an entry out of the list takes exactly its key out of the order |
| `InMemoryRateLimiter.Limiter.Init` | common/rate-limit.go:78-93 | Only the first call sets the expiration |
| `InMemoryRateLimiter.Limiter.MoveToFront` | common/rate-limit.go:146 | The entry's key moves to the front of the order, nothing else changes |
| `InMemoryRateLimiter.Limiter.AddEntry` | common/rate-limit.go:136-142 | A new key enters the store with an empty window and heads the list |
| `InMemoryRateLimiter.Limiter.TouchEntry` | common/rate-limit.go:143-145 | The key's window loses what expired |
| `InMemoryRateLimiter.Limiter.AdmitEntry` | common/rate-limit.go:149-152 | The key's window grows by the request iff there is room |
| `InMemoryRateLimiter.Limiter.EvictOldest` | common/rate-limit.go:117-125 | The last entry leaves store and list, and its queue is released |
| `InMemoryRateLimiter.Limiter.EvictIdle` | common/rate-limit.go:111-126 | The walk ends in the state of the value model |
| `InMemoryRateLimiter.Limiter.DeleteExpiredEntries` | common/rate-limit.go:102-127 | On the objects, the walk leaves exactly the keys that are still active; store, list and all queues stay intact and linked |
| `InMemoryRateLimiter.Limiter.Request` | common/rate-limit.go:129-155 | On the objects, the answer and what store, queues and list hold are those of the value model; all queues stay valid chains and separate |
| `InMemoryRateLimiter.Serve` | common/rate-limit.go:95-155 | One operation of a run, request or tick, moves the objects as it moves the value model |
| `InMemoryRateLimiter.Play` | common/rate-limit.go:63-155 | Every run of the value model is a run of the objects: queues, store and list stay intact throughout, and the same requests are let through |
| `HomepageStats.Cache.WriteSnapshot` | controller/homepage_stats.go:118-123 | Replaces the snapshot and its time, nothing else |
| `HomepageStats.Cache.MarkFailure` | controller/homepage_stats.go:125-130 | Records the failure and its payload, nothing else |
| `HomepageStats.Cache.ClearFailure` | controller/homepage_stats.go:132-137 | Forgets the failure, nothing else |
| `HomepageStats.Cache.RefreshSection` | controller/homepage_stats.go:253-336 | In place, the section computes, publishes and answers as the value model does |
| `HomepageStats.CachesKept` | controller/homepage_stats.go:312-320 | Redis and the snapshots keep holding only published payloads with both operational aggregates |
| `HomepageStats.ServedKept` | controller/homepage_stats.go:219-240 | Every answer so far stays explained by the caches it came from |
| `HomepageStats.AnswersKept` | controller/homepage_stats.go:295-327 | Every aggregate so far stays tied to the answer its section gave |
| `HomepageStats.MemoryKept` | controller/homepage_stats.go:297-327 | Each process's snapshot and failure times stay in step with its last aggregate |
| `HomepageStats.SpacingKept` | controller/homepage_stats.go:145-160 | Successive aggregates of a process stay spaced |
| `HomepageStats.InvAlways` | controller/homepage_stats.go:219-336 | All of these hold in every run of any number of processes |
| `HomepageStats.OnlyGoodPayloadsAreCached` | controller/homepage_stats.go:365-368 | In every run Redis and each snapshot hold only payloads whose two operational aggregates succeeded, as published |
| `HomepageStats.FailedRefreshKeepsCaches` | controller/homepage_stats.go:297-327 | A failed aggregate changes neither Redis nor any snapshot, and serves the snapshot if there is one |
| `HomepageStats.ServedAges` | controller/homepage_stats.go:219-240 | Measured from publication, a `hit` is younger than one cache lifetime and a `hit-memory` younger than two less one tick; `as_of`, which clients see, lies earlier by the time the aggregate took. No cached answer was rewritten, and any other answer comes from an aggregate of the same process |
| `HomepageStats.AnswersOfAggregates` | controller/homepage_stats.go:297-327 | In every run a published aggregate was itself the answer; one that failed was answered by the snapshot, without one by itself if it marshalled, and only otherwise by the unavailable envelope |
| `HomepageStats.PublicationFillsBothCaches` | controller/homepage_stats.go:312-320 | A published payload fills the snapshot, and Redis for one lifetime if it takes the write, and clears the failure memory |
| `HomepageStats.HandledIff` | controller/homepage_stats.go:219-234 | Before a refresh a request is answered iff Redis or a fresh snapshot can answer it |
| `HomepageStats.CachedAnswers` | controller/homepage_stats.go:257-287 | Without an aggregate the answer is Redis, else the own snapshot, fresh or within the backoff, else the payload of the recent failure, each under its own header |
| `HomepageStats.EnvelopeIsHonest` | controller/homepage_stats.go:342-357 | The unavailable envelope shows nothing as available and is never published |
| `HomepageStats.AggregatesAreSpaced` | controller/homepage_stats.go:145-160 | Aggregates of one process are a cache lifetime apart after a publication and the backoff apart otherwise, unless marshalling failed without a snapshot |
| `HomepageStats.MemoryAgeBoundIsTight` | controller/homepage_stats.go:257-270 | Every age below the `hit-memory` bound is reached in some run |
| `HomepageStats.BackoffFailsExactlyWithoutAnswer` | controller/homepage_stats.go:266-305 | The backoff computes again within its period only with neither a snapshot nor a failed payload, and always then |
| `HomepageStats.MarshalFailureDefeatsBackoff` | controller/homepage_stats.go:280-305 | If marshalling may fail, aggregates occur at every gap, zero included |
| `UpstreamModels.NormalizeIsIdempotent` | controller/channel_upstream_update.go:101-106 | Normalized lists are trimmed, non-empty and distinct, and normalizing them changes nothing |
| `UpstreamModels.NormalizeMeans` | controller/channel_upstream_update.go:101-106 | A normalized list holds exactly the trimmed non-empty names, each where it first occurs |
| `UpstreamModels.MergeModelNames` | controller/channel_upstream_update.go:108-122 | The loop keeps the base as a prefix, adds exactly the unseen names and stays normal |
| `UpstreamModels.FilterAgreesIff` | controller/channel_upstream_update.go:124-144 | Two filters of a list agree, order included, iff their predicates agree on it |
| `UpstreamModels.DetectionMeans` | controller/channel_upstream_update.go:180-239 | A pending removal is a local model that is no alias and not offered; a pending addition is an offered model that is not local, no target of an alias, and covered by no ignore entry, as text or as rule |
| `UpstreamModels.DetectionKeepsOrder` | controller/channel_upstream_update.go:214-238 | Additions come in upstream order, removals in channel order |
| `UpstreamModels.SelectionMeans` | controller/channel_upstream_update.go:972-977 | A request selects exactly the staged names it asks for, in its order, and adding wins over removing |
| `UpstreamModels.ApplicationMeans` | controller/channel_upstream_update.go:979-993 | Name by name: what is served, ignored and staged after an application |
| `UpstreamModels.CheckMeans` | controller/channel_upstream_update.go:537-549 | A check appends exactly the pending additions iff automatic adoption is on, stages the rest, and never touches the ignore list |
| `UpstreamModels.AliasesSurvive` | controller/channel_upstream_update.go:197-237 | No run of checks against any upstreams and of any applications removes a served alias or adopts the target of an alias |
| `UpstreamModels.SelectionIsPending` | controller/channel_upstream_update.go:958-975 | Whatever is requested, only pending names are added, ignored or removed |
| `UpstreamModels.NextModelsUnfolded` | controller/channel_upstream_update.go:146-151 | The next list is the old one without the removals, then the additions in request order |
| `UpstreamModels.RedetectedRemoves` | controller/channel_upstream_update.go:180-239 | Detecting again finds exactly the staged removals, in order |
| `UpstreamModels.RedetectedAddsIff` | controller/channel_upstream_update.go:180-239 | Detecting again finds exactly the staged additions, in order, iff the selection is safe: ignored rule-like names are matched by an entry that stays, new rules match no further open name, dropped rules were redundant |
| `UpstreamModels.ExactIffSafe` | controller/channel_upstream_update.go:986-989 | The safety of a selection, stated on the inputs, is equivalent to the new ignore list ignoring exactly the old and the newly ignored open names |
| `UpstreamModels.PartialApplyIsStableIff` | controller/channel_upstream_update.go:958-1006 | Detecting again after any partial add, ignore and remove reproduces the stored remainder, order included, iff the selection is safe |
| `UpstreamModels.PlainSelectionIsSafe` | controller/channel_upstream_update.go:958-1006 | A selection that ignores no rule-like name and adds no name that is an ignore rule is safe |
| `UpstreamModels.PartialApplyIsStable` | controller/channel_upstream_update.go:958-1006 | In particular for every selection without rule-like names to ignore and without ignore rules to add |
| `UpstreamModels.ApplyingEverythingSettlesIff` | controller/channel_upstream_update.go:958-1006 | Applying everything empties the staged lists and the removals; nothing is pending on the next detection iff no dropped ignore rule was the only one for some open name |
| `UpstreamModels.CheckLeavesFreshState` | controller/channel_upstream_update.go:513-560 | A check, with or without automatic adoption, stores exactly what detecting again would find |
| `UpstreamModels.IgnoringARuleName` | controller/channel_upstream_update.go:214-228 | Ignoring a `regex:` name works iff the rule it becomes matches the name |
| `UpstreamModels.AddingARuleUnignores` | controller/channel_upstream_update.go:986-989 | For every rule-like name whose rule alone ignores another name and not itself: applying everything does not settle, the other name is pending next |
| `UpstreamModels.IgnoringARuleIgnoresMore` | controller/channel_upstream_update.go:986-992 | For every rule-like name whose rule matches another name: ignoring it leaves the other staged although the next detection does not find it |
| `UpstreamModels.RuleNamesInPractice` | controller/channel_upstream_update.go:214-228 | Both failures at real inputs, `regex:^a$` and `regex:.` beside `a` |
| `UpstreamModels.ChannelRecord.Persist` | controller/channel_upstream_update.go:502-511 | The row takes the settings, and the models only when they changed; a failed write changes nothing |
| `UpstreamModels.ChannelRecord.ApplySelection` | controller/channel_upstream_update.go:971-993 | The loaded channel becomes the applied one; the selection and whether the models changed are reported |
| `UpstreamModels.ChannelRecord.ApplyUpdates` | controller/channel_upstream_update.go:958-1006 | For any loaded channel and row: the channel becomes the applied one, the row takes the settings and changed models, the report matches, a failed write leaves the row, and each error is reported |
| `UpstreamModels.ChannelRecord.CheckAndPersist` | controller/channel_upstream_update.go:513-560 | Skipped within the interval; otherwise the fetched state is fresh and stored, automatic adoption takes over and counts every pending addition, a failed fetch keeps the lists, and each error is reported |
| `MultiKey.DeleteKeyKeepsOthers` | controller/channel.go:1956-2036 | Survivors keep their order, status, disabled time and reason; index maps fit the new key range, whose size is stored |
| `MultiKey.DeleteDisabledKeepsOthers` | controller/channel.go:2039-2109 | The same for deleting all automatically disabled keys, when a key survives |
| `MultiKey.DisableKeyMeans` | controller/channel.go:1792-1836 | The requested key becomes manually disabled and no other key reports anything new |
| `MultiKey.EnableKeyMeans` | controller/channel.go:1838-1879 | The requested key becomes enabled without time and reason, the others stay |
| `MultiKey.EnableAllMeans` | controller/channel.go:1881-1904 | Every key becomes enabled, all times and reasons go |
| `MultiKey.DisableAllMeans` | controller/channel.go:1906-1954 | Exactly the enabled keys become manually disabled, others keep status, time and reason; refused iff no key is enabled |
| `MultiKey.DeletionsMean` | controller/channel.go:1981-2077 | A deletion leaves all keys but the requested one, or all that are not automatically disabled |
| `MultiKey.RefusalsMean` | controller/channel.go:1792-2085 | Refused iff the index is missing or outside, the last key would go, or nothing is automatically disabled; a refused action changes nothing |
| `MultiKey.ReportsMean` | controller/channel.go:1699-1742 | Time and reason are reported, as stored, for disabled keys only; a key without an entry is enabled |
| `MultiKey.ActionKeepsLink` | controller/channel.go:1792-2109 | Each action keeps the channel enabled exactly when a key is, unless it deletes every key |
| `MultiKey.DeletingEveryKeyRevivesThem` | model/channel.go:558-601 | Deleting every key brings the stored keys back, all enabled, under a disabled channel |
| `MultiKey.LinkKeptIff` | controller/channel.go:1792-2109 | An action keeps the link iff it does not delete every key |
| `MultiKey.LinkLost` | controller/channel.go:2039-2109 | Any action of a run that deletes every key leaves some prefix after which the channel is not enabled exactly when a key is |
| `MultiKey.ChannelFollowsKeysIff` | controller/channel.go:1792-2109 | From a channel in step with its keys: it is enabled exactly when some key is, after every prefix of a run, iff no action of the run deletes every key it finds |
| `MultiKey.NeverReenabled` | controller/channel.go:124-136 | A channel disabled for another reason keeps its status and reason through every run |
| `MultiKey.LinkLostByDeletions` | controller/channel.go:2039-2109 | The failing case is reached from an enabled channel by two deletions |
| `MultiKey.CopyKeys` | controller/channel.go:1974-2006 | The copying loop yields the surviving keys with their entries renumbered |
| `MultiKey.MarkEnabled` | controller/channel.go:1918-1930 | The loop marks exactly the enabled keys below the stored size and counts them |
| `MultiKey.ManagedChannel.HasEnabledMultiKey` | controller/channel.go:90-107 | The scan finds a usable key iff there is one |
| `MultiKey.ManagedChannel.DisableIfNoKeyIsUsable` | controller/channel.go:109-122 | Closes the channel as the value model does, and asks to close sockets iff no key is usable |
| `MultiKey.ManagedChannel.RestoreIfSomeKeyIsUsable` | controller/channel.go:124-136 | Restores the channel as the value model does |
| `MultiKey.ManagedChannel.Update` | model/channel.go:558-601 | Writing back recomputes the size and falls back to the stored keys |
| `MultiKey.ManagedChannel.Disable` | controller/channel.go:1792-1836 | In place, refusal and new channel are those of the value model |
| `MultiKey.ManagedChannel.Enable` | controller/channel.go:1838-1879 | In place, refusal and new channel are those of the value model |
| `MultiKey.ManagedChannel.EnableAll` | controller/channel.go:1881-1904 | In place, the new channel is that of the value model |
| `MultiKey.ManagedChannel.MarkEnabledKeys` | controller/channel.go:1906-1932 | In place, marks exactly the enabled keys below the stored size and counts them |
| `MultiKey.ManagedChannel.DisableAll` | controller/channel.go:1906-1954 | In place; refused iff no key is enabled |
| `MultiKey.ManagedChannel.Replace` | controller/channel.go:2016-2028 | Takes over renumbered keys, closes the channel if needed and writes it back |
| `MultiKey.ManagedChannel.Delete` | controller/channel.go:1956-2036 | In place, refusal and new channel are those of the value model |
| `MultiKey.ManagedChannel.DeleteDisabled` | controller/channel.go:2039-2109 | In place, refusal and new channel are those of the value model |
| `BodyStorage.StepsAgreeIff` | common/body_storage.go:62-108 | From the same body and cursors, a call is answered alike by both variants iff it is not a telling one (empty read at the end, file-only seek origin, offset beyond the file system's limit, new reader after the cleaner, closed reader), and then they stay the same |
| `BodyStorage.TracesAgreeIff` | common/body_storage.go:159-275 | Every sequence of calls is answered alike iff it contains no telling call |
| `BodyStorage.FreshStoragesAgreeIff` | common/body_storage.go:52-157 | The same from the two constructors |
| `BodyStorage.TellingCalls` | common/body_storage.go:196-275 | Each kind of telling call occurs on a fresh storage |
| `BodyStorage.OrdinaryCallsAgree` | common/body_storage.go:20-34 | Non-empty reads, seeks the file system accepts, no new reader after the cleaner and no use of a closed reader suffice, by the text of the calls alone |
| `BodyStorage.ReadMeans` | common/body_storage.go:62-69 | A read before the end hands out the next n bytes or all that are left and moves past them, on the storage and on a reader |
| `BodyStorage.DiskReadMeans` | common/body_storage.go:196-203 | The same for the file variant |
| `BodyStorage.SeekMeans` | common/body_storage.go:71-78 | A seek counts from start, cursor or end, is refused before the start or out of range, and a read then starts there |
| `BodyStorage.DiskSeekMeans` | common/body_storage.go:205-212 | The same for the file variant, within the file system's limit |
| `BodyStorage.DiskHolesMean` | common/body_storage.go:205-212 | The next data is at the offset, the next hole at the end |
| `BodyStorage.NewReaderReplays` | common/body_storage.go:98-108 | A new reader is handed the body from its beginning, whatever follows |
| `BodyStorage.DiskNewReaderReplays` | common/body_storage.go:259-275 | The same for the file variant |
| `BodyStorage.ClosedIff` | common/body_storage.go:62-112 | In every sequence a call finds the storage closed iff it needs the storage and a Close came before; until then Bytes is the whole body, and the size is always known |
| `BodyStorage.DiskClosedIff` | common/body_storage.go:196-279 | The same for the file variant |
| `BodyStorage.ClosedForGood` | common/body_storage.go:62-108 | After Close every later call that needs the storage is refused, for good |
| `BodyStorage.DiskClosedForGood` | common/body_storage.go:196-275 | The file variant, too, refuses every later call that needs the storage, for good |
| `BodyStorage.ReaderReplaysBody` | common/body_storage.go:98-108 | A reader is handed exactly the bytes its own cursor passes over, whatever happens to the storage and other readers |
| `BodyStorage.DiskReaderReplaysBody` | common/body_storage.go:259-275 | A reader of the file variant is handed exactly the bytes its descriptor passes over, also after the storage closed and unlinked the file |
| `BodyStorage.CursorIsPrivate` | common/body_storage.go:89-108 | Only the storage's own reads and seeks move its cursor |
| `BodyStorage.DiskCursorIsPrivate` | common/body_storage.go:225-275 | Although Bytes seeks away and back, only reads and seeks of the storage leave its cursor elsewhere |
| `BodyStorage.CreationKeepsEverythingOrNothing` | common/body_storage.go:307-348 | A storage always holds the full content within the limit; a fitting stream is refused iff it cannot be read or goes straight to a file that fails; a longer one is always refused, as too large unless such a failure comes first |
| `BodyStorage.DiskChosenIff` | common/body_storage.go:286-348 | The body is on disk iff the announced length, or else the actual size of a written file, reaches the threshold with room for it; usage can exceed the maximum only for a stream longer than announced |
| `BodyStorage.ReadsAtMostOneByteMore` | common/body_storage.go:161-178 | At most one byte beyond the limit is read |
| `BodyStorage.DiskStorage.constructor` | common/body_storage.go:127-157 | A new file holds the body with the cursor at its start |
| `BodyStorage.DiskStorage.Read` | common/body_storage.go:196-203 | Through the descriptor, as in the value model |
| `BodyStorage.DiskStorage.Seek` | common/body_storage.go:205-212 | Through the descriptor, with the file's own origins and the file system's limit, as in the value model |
| `BodyStorage.DiskStorage.Bytes` | common/body_storage.go:225-257 | Returns the whole body and puts the cursor back; readers are not involved |
| `BodyStorage.DiskStorage.CloseStorage` | common/body_storage.go:214-223 | Closes once and tells whether this was the first time |
| `BodyStorage.File.ReadWhole` | common/body_storage.go:233-254 | Seeking away, reading all and seeking back returns the content and restores the offset |
| `BodyStorage.DiskStorage.NewReader` | common/body_storage.go:259-275 | Opens a further descriptor at the start, refused once closed, failing once the file is gone |
| `BodyStorage.DiskStorage.RemoveFile` | common/disk_cache.go:129-134 | The cleaner takes the path away and nothing else: open descriptors keep the content |
| `BodyStorage.DiskStorage.ReadFrom` | common/body_storage.go:259-275 | A read on a handed-out descriptor moves only that cursor, and fails after its own close |
| `BodyStorage.DiskStorage.CloseReader` | common/body_storage.go:259-275 | Closes only that descriptor, once |
| `BodyStorage.MemoryStorage.Read` | common/body_storage.go:62-69 | On the buffer, as in the value model |
| `BodyStorage.MemoryStorage.Seek` | common/body_storage.go:71-78 | On the buffer, as in the value model |
| `BodyStorage.MemoryStorage.Bytes` | common/body_storage.go:89-96 | Returns the whole body and moves nothing |
| `BodyStorage.MemoryStorage.CloseStorage` | common/body_storage.go:80-87 | Closes once and tells whether this was the first time |
| `BodyStorage.MemoryStorage.NewReader` | common/body_storage.go:98-108 | Hands out a further reader at the start, refused once closed |
| `BodyStorage.MemoryStorage.ReadFrom` | common/body_storage.go:98-108 | A read on a handed-out reader moves only that cursor |
| `BodyStorage.MemoryStorage.CloseReader` | common/body_storage.go:98-108 | Closing a reader does nothing |
| `StorageAccounting.BalancedKept` | common/disk_cache_config.go:108-156 | Every step keeps the memory counters exact and the disk counters at or below the files in the directory; exact disk counters stay exact iff the step is not a reset or the close of a body storage whose file was cleaned away, while files are counted |
| `StorageAccounting.OwnedKept` | common/gin.go:36-106 | Every step keeps each open storage with exactly one owner: a request's slot, a relay call or a media file in use |
| `StorageAccounting.ReplaceIsCleanupThenGet` | controller/playground.go:110-123 | Creating before closing ends with the same storages and slots as closing before creating |
| `StorageAccounting.OpeningMeans` | common/body_storage.go:52-60 | What is opened is an open storage of the given kind and size in its own place; everything opened before stays, except what a replacement closes |
| `StorageAccounting.ReadingAgainCreatesNothing` | common/gin.go:38-45 | A body in the slot is used again, not created again |
| `StorageAccounting.InvAlways` | common/disk_cache_config.go:108-156 | Both hold in every run |
| `StorageAccounting.CountersMatchOpenStorages` | common/disk_cache_config.go:108-156 | In every run, the cleaner and resets included, memory counters equal number and size of open memory storages, disk counters never exceed the files in the directory, and all are zero once nothing is held |
| `StorageAccounting.DiskCountersExactIff` | common/disk_cache_config.go:108-156 | Disk counters equal number and size of the files throughout a run iff no step is a reset, or closes a body storage whose file was cleaned away, while files are counted |
| `StorageAccounting.CleanedStorageIsCountedTwice` | common/body_storage.go:214-223 | The failing case at its smallest: after a cleaned body is closed the counters miss a file that is there |
| `StorageAccounting.FilesAreTheOpenOnes` | common/body_storage.go:127-194 | Without the cleaner the files are exactly the open storages on disk |
| `StorageAccounting.OneStoragePerRequest` | common/gin.go:36-106 | Every open storage has exactly one owner, one request's slot, relay call or media file; a slot holds at most one, and cleanup closes that one and no other |
| `StorageAccounting.UsageStats.Add` | common/disk_cache_config.go:109-129 | One storage of that kind and its bytes are added |
| `StorageAccounting.UsageStats.Subtract` | common/disk_cache_config.go:115-134 | One storage of that kind and its bytes are taken off, with the disk counters stopping at zero |
| `StorageAccounting.Gateway.CreateFor` | common/body_storage.go:52-60 | A new storage is counted and put in the slot |
| `StorageAccounting.Gateway.CloseOnce` | common/body_storage.go:80-87 | Only the first close counts |
| `StorageAccounting.Gateway.GetRequestBody` | common/gin.go:36-84 | Creates a storage only for an empty slot |
| `StorageAccounting.Gateway.ReplaceBody` | controller/playground.go:110-123 | Replaces the slot's storage and closes the previous one |
| `StorageAccounting.Gateway.CleanupBodyStorage` | common/gin.go:99-106 | Closes the slot's storage and empties the slot |
| `StorageAccounting.Gateway.NewOutboundBody` | relay/common/outbound_body.go:25-31 | A relay call's upstream body is a counted storage outside any slot |
| `StorageAccounting.Gateway.CloseOutboundBody` | relay/claude_handler.go:121-125 | It is closed and no longer counted when the call returns |
| `StorageAccounting.Gateway.CacheMedia` | service/file_service.go:202-209 | A media file cached on disk is counted with the body storages |
| `StorageAccounting.Gateway.CloseMediaOnce` | relaykit/types/file_source.go:209-232 | Closing a media file uncounts it only if it is the one that removes the file |
| `StorageAccounting.Gateway.RemoveOldFile` | common/disk_cache.go:129-134 | The cleaner unlinks one file and uncounts it, whoever holds it |
| `StorageAccounting.OnlyCloseIsAccounted` | common/body_storage.go:62-112 | Of all calls on a storage of either variant only Close and the cleaner change its account, as the accounting model's close and unlink do |
| `ObservationLimiter.LowerUndoesRaise` | controller/plugin_protocol_limiter.go:88-124 | Taking back a raised count restores the map itself, keys included |
| `ObservationLimiter.AcquireKeepsValid` | controller/plugin_protocol_limiter.go:65-131 | Acquiring keeps every scope's counter equal to its live leases, within its limit and without zero entries |
| `ObservationLimiter.ReleaseKeepsValid` | controller/plugin_protocol_limiter.go:133-156 | Releasing keeps the same |
| `ObservationLimiter.ValidAlways` | controller/plugin_protocol_limiter.go:65-157 | The same after every run |
| `ObservationLimiter.AdmissionIff` | controller/plugin_protocol_limiter.go:65-131 | After any run an identity is admitted iff it is well formed and all four scopes have room; a refusal names the widest full scope |
| `ObservationLimiter.LimitsRespected` | controller/plugin_protocol_limiter.go:80-131 | After every run no more leases are live than the global, plugin, user and token limits allow |
| `ObservationLimiter.AcquisitionMeans` | controller/plugin_protocol_limiter.go:70-78 | An acquisition adds one live lease of the trimmed plugin key, counted at exactly its four scopes; malformed ids are reported in order |
| `ObservationLimiter.ReleaseIsIdempotent` | controller/plugin_protocol_limiter.go:133-156 | Releasing a lease again changes nothing |
| `ObservationLimiter.AllReleasedMeansEmpty` | controller/plugin_protocol_limiter.go:133-156 | With all leases released, in any order, no counter and no key remains |
| `ObservationLimiter.Limiter.Acquire` | controller/plugin_protocol_limiter.go:65-131 | In place, with manual undo: a refusal leaves the state identical, success adds one lease, and the answer is the value model's |
| `ObservationLimiter.Limiter.TryAcquire` | controller/plugin_protocol_limiter.go:70-131 | Counting up scope by scope, with manual undo, ends in the value model's state with its answer |
| `ObservationLimiter.Limiter.Release` | controller/plugin_protocol_limiter.go:133-156 | In place, the new state is the value model's and the lease is released |
| `MidjourneyRefund.TaskCopy.Update` | controller/midjourney.go:171-209 | In place, the copy becomes the written task, and a refund is due iff the build failed and there is quota |
| `MidjourneyRefund.TaskRow.UpdateWithStatus` | model/midjourney.go:189-198 | The row is replaced iff its status is still the expected one and the database answered; the update is won iff moreover the database counts matched rows or something changed |
| `MidjourneyRefund.HandleItem` | controller/midjourney.go:153-218 | One response item, timeout included, moves row and copy and decides the refund as the machine's step does |
| `MidjourneyRefund.HonestFailure` | controller/midjourney.go:162-209 | For a report with status and reason in agreement, a build counts as failed iff the written status is FAILURE, and a written failure is complete |
| `MidjourneyRefund.CopyFollowsReport` | controller/midjourney.go:167-210 | After an item the copy shows the report, except that a failed task is complete; quota and absent extras are kept |
| `MidjourneyRefund.RowFollowsCopy` | controller/midjourney.go:211-216 | The row becomes that copy iff the status is unchanged, the database answers and something changed |
| `MidjourneyRefund.TimeoutFails` | controller/midjourney.go:160-165 | After an hour an unfinished task is failed and complete, whatever is reported |
| `MidjourneyRefund.TransitionOwesRefund` | controller/midjourney.go:203-216 | The pass that moves the row into FAILURE owes a refund iff there is quota, also at 100%; any other pass owes none |
| `MidjourneyRefund.RefundMeans` | service/midjourney.go:97-138 | A refund credits the quota once and clears it in the copy and the row; a failed credit changes nothing |
| `MidjourneyRefund.BulkFailMeans` | controller/midjourney.go:61-102 | A bulk failure fails and completes the row, keeps its quota and refunds nothing |
| `MidjourneyRefund.InvKept` | controller/midjourney.go:153-218 | A refund, due or done, belongs to the one transition of the row into FAILURE; failed rows are complete and no pass starts from one |
| `MidjourneyRefund.InvAlways` | controller/midjourney.go:153-218 | The same in every run of any number of passes |
| `MidjourneyRefund.RefundedAtMostOnce` | controller/midjourney.go:153-218 | A task is refunded at most once, by exactly its quota, on either kind of database |
| `MidjourneyRefund.FailureIsNeverOverwritten` | controller/midjourney.go:153-218 | No response item changes a row whose stored status is FAILURE |
| `MidjourneyRefund.FailureIsFinal` | model/midjourney.go:96-105 | In every run a stored FAILURE stays, complete, and is never loaded again |
| `MidjourneyRefund.FailedTasksAreRefunded` | controller/midjourney.go:153-218 | In every polling run a task with quota that is found failed is refunded, or its refund is due by the pass that found it |
| `MidjourneyRefund.ReasonWithoutFailure` | controller/midjourney.go:203-217 | For every report with a reason but another status, a run that refunds twice on every database, since the first refund clears the stored quota |
| `MidjourneyRefund.FailureWithoutReason` | controller/midjourney.go:161-217 | For every unfinished FAILURE report without a reason, a run that refunds twice on every database |
| `MidjourneyRefund.NeverRefundsTwiceIff` | controller/midjourney.go:153-218 | On either kind of database no schedule refunds twice iff every possible report on an unfinished task has the FAILURE status exactly when it has a reason |
| `MidjourneyRefund.RepeatedItemRefundsTwice` | controller/midjourney.go:153-218 | For every honest failure report, listing it twice gives a run that refunds twice |
| `QuotaMath.RoundIsNearest` | common/quota_math.go:139-142 | Rounding yields n iff n is the nearest integer, ties away from zero |
| `QuotaMath.SaturateKeepsOrder` | common/quota_math.go:86-100 | Every conversion stays within its bounds, NaN included, and keeps the order of comparable values |
| `QuotaMath.SaturatesToTheNearest` | common/quota_math.go:86-100 | Outside the bounds the nearest bound, for NaN zero, each with its clamp; inside only the fraction is lost |
| `QuotaMath.QuotaRoundKeepsOrder` | common/quota_math.go:133-142 | The same for the rounding conversion |
| `QuotaMath.StrictTruncationIff` | common/quota_math.go:102-127 | The strict truncating conversion succeeds iff the value is within the bounds, loses only the fraction, and names the bound it missed |
| `QuotaMath.StrictRoundingIff` | common/quota_math.go:139-148 | The strict rounding conversion succeeds iff the value is less than half a unit outside the bounds, and yields the nearest integer |
| `QuotaMath.WalletStrictIff` | common/quota_math.go:170-175 | A wallet credit is accepted iff it rounds into the range of exact integers |
| `QuotaMath.RatioQuotaIsMonotone` | controller/channel-test.go:548-557 | More prompt or completion tokens never cost less, for all non-negative ratios, infinite and NaN included |
| `QuotaMath.RatioQuotaIsBounded` | controller/channel-test.go:548-557 | The charge fits a quota, and is zero iff the model ratio is exactly zero |
| `QuotaMath.RatioQuotaIsClose` | controller/channel-test.go:548-557 | Unless a step saturates, the charge is within half the model ratio plus one unit of the unrounded price |
| `QuotaMath.ExtremeRatios` | controller/channel-test.go:550-551 | Without completion tokens only the prompt counts, whatever the ratio; an infinite ratio saturates, NaN counts nothing |
| `QuotaMath.PriceQuotaMeans` | controller/channel-test.go:559 | Within the bounds the price times 500000 towards zero, beyond them the bound, for NaN nothing |
| `QuotaMath.PriceQuotaIsMonotone` | controller/channel-test.go:559 | A higher model price never costs less, and the charge fits a quota |
| `QuotaMath.MultipleIsProduct` | controller/channel-test.go:550-552 | The products of the model are the real products |

## Left out

- HTTP handlers, JSON binding, audit logs, SQL, Redis and upstream fetching: they appear only as inputs and outcomes of steps.
- Clocks are step parameters that never go back; `HomepageStats` counts in ticks of one unit.
- WorkerPool.InvAlways: a panic inside a channel test is not modelled.
- WorkerPool.UncancelledRun: the pool is a step machine and not a method with goroutines, which Dafny does not have.
- GoogleRegistration.InvAlways: the owner lookup's two reads are one step, and a failed transaction is a full rollback.
- GoogleRegistration.SuccessfulCallbacksAgree: holds while the subject's claim is not released, since a released subject may be claimed again.
- GoogleRegistration.RegisterAccount: user names, emails and inviters carry no state here.
- InMemoryRateLimiter.Limiter.MoveToFront: the list is a sequence of the entries; the list library's own nodes, and each entry's pointer to its node, are not modelled.
- RateLimiter.AdmissionFollowsTheLog: assumes one duration per key and a clock that does not go back.
- HomepageStats.InvAlways: a refresh section is one atomic step; callers that wait for a running section share its answer and are not separate steps.
- HomepageStats.ServedAges: the code's comment describes both cache layers as equally fresh; the model follows the code, which allows memory answers up to almost two lifetimes.
- UpstreamModels.RedetectedAddsIff: regular expressions are an arbitrary relation between pattern and name, and model lists are sequences, not comma-separated text.
- UpstreamModels.AliasesSurvive: the alias mapping stays the same throughout a run; an administrator who edits it after a check may still find older names staged.
- UpstreamModels.ChannelRecord.CheckAndPersist: the batch task over all channels, notifications and cache refreshes are left out.
- MultiKey.ManagedChannel.Update: key lists are sequences; newline and JSON encodings, blank lines, and the time of a status change are left out.
- The status listing of a multi-key channel: it reads the same maps, changes nothing and keeps no state of its own.
- BodyStorage.TracesAgreeIff: the two extra seek origins follow Linux and a file without holes; other systems, short writes and I/O errors on an open file are left out.
- StorageAccounting.DiskCountersExactIff: the directory holds only this process's files; the directory scan that would overwrite the disk counters has no caller and is left out.
- The replayable form and multipart parsers in common/gin.go: parsing, with no state of their own beyond the cursor.
- MidjourneyRefund.InvAlways: one row with one upstream id; two rows that share an id are not modelled, nor is an update that was committed although the database reported an error.
- MidjourneyRefund.TaskCopy.Update: the further columns that are copied and compared are one `details` value, those copied without comparison one `extras` value.
- MidjourneyRefund.RefundedAtMostOnce: the token, channel and used-quota corrections that follow a refund are not modelled.
- QuotaMath.RatioQuotaIsMonotone: rounding inside float64 operations is not modelled, nor is tiered billing.
- QuotaMath.RatioQuotaIsClose: makes no claim when an intermediate value saturates; there `RatioQuotaIsBounded` applies.
