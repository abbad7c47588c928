# Verification of the booking and load-balancing cores

A Dafny model, with proofs, of the parts of the ticket-booking platform whose correctness depends on
interleaving, iterated arithmetic or text rewriting. `dafny verify dfyconfig.toml` checks the whole project.

## What is modelled

**Bookings** (`backend/src/modules/booking`). `BookingModel` holds the two tables, the WHERE and SET clauses of
the guarded UPDATEs and each use case as one atomic operation (`Apply`). `BookingStore` is the code in its own
form: a class over the two tables whose methods run the use cases statement by statement and are proved equal to
`Apply`. `BookingProtocol` runs any number of callers concurrently: committed tables, row locks, unpublished
writes and a program counter for each caller, with the PostgreSQL READ COMMITTED rule (an UPDATE picks its row
from a statement snapshot, waits for the row lock, and checks its WHERE clause again on the newest committed
row). Any transaction may abort at any step, and the reply to a COMMIT may be lost. `BookingRefinement` proves
that every such run is explained by a serial run of atomic operations, and `BookingAccounting` says what a
seat's version counts. `BookingOwnership` says whose bookings a caller can reach. `HoldExpiry` adds the delayed job: at most three attempts, a bounded list of failed jobs,
removal on cancel, scheduling that may fail. `FailureRecords` and `HoldExpiryRecords` say exactly how long a failure is
remembered, `HoldExpiryRetries` how long the attempts wait, and `HoldExpiryProtocol` puts the queue beside the interleaved protocol.

**The load-balancer feedback loop** (`router-core`, `lb-proxy`), over the reals. `Scoreboard` has the update as
functions and as a class whose loops, in whatever order the hash maps are walked, compute those functions;
`exp` and `sqrt` are parameters of which only the laws in `MathsOk` are used. `ScoreboardFloor`,
`ScoreboardDominance` and `ScoreboardDomains` prove what the five steps together guarantee, which is not always
what the comments in the source say: floor and cap are applied before normalisation. `ScoreboardPositive` and
`ScoreboardSaturation` cover updates without a floor and large pools, and `ScoreboardResponse` says exactly when
each input moves a weight. `ProxySync` is the loop that turns measured
health into predictions, and `ProxySmallPools` says which pools it can re-weight at all, and `ProxySensitivity` that errors alone and latencies alone do.
`Router` is the choice of a server and its generator, `RouterChoice` follows the scoreboard's weights into the choice,
and `RouterDraws` counts how often each index is drawn. `ServerHealth` and `LatencyEma` are
the sliding windows and the compare-exchange average. `Sums` has sums over finite sets of servers.

**Smaller cores.** `RateLimiter` (INCR and EXPIRE NX as separate steps, crashes in between), `DrainReaper` (the
HTTP drain) and `ConnectorTemplate` (JSON escaping and placeholder substitution, against section 7 of RFC 8259).

## Where the code and its comments differ

The model follows the code. These differences are proved:

- The floor is applied before normalisation, so a share can end below `min_weight`: it does exactly when the
  floored total is large enough (`ScoreboardFloor.BelowMinWeightIff`), and with 34 backends or more every one is
  below it after every poll (`ProxySync.ManyBackendsEndBelowMinWeight`). `ScoreboardFloor.ExplorationFloor` is what
  is guaranteed.
- The cap is not enforced. Where the floor does not intervene, an update meets the cap if and only if its raw
  weights did before anything was capped (`ScoreboardDomains.UpdateMeetsCapIff`), and repeating the step does not
  help (`ScoreboardDomains.PassesMeetCapIff`): every over-cap domain is over the cap again
  (`ScoreboardDomains.StaysOverCap`). The proxy's board breaks the default cap at the start and after every poll
  (`ProxySync.ProxyNeverMeetsCap`). A lone over-cap domain of share x < 1 moves to cap/(cap+1-x), between cap and x
  (`ScoreboardDomains.LoneDomainShare`), and if the rest is spread well enough the share converges to the cap
  without reaching it (`ScoreboardDomains.SpreadConverges`). In a pool of one domain, the only kind the proxy builds, the cap then
  cancels out (`ScoreboardDomains.CapCancelsInOneDomain`).
- With the default configuration a proxy never changes a weight if and only if it has one backend or at least ten
  (`ProxySmallPools.NeverReweightedIff`): in larger pools every server is clamped to the same step upwards, and
  normalisation takes it back. From 15 on this holds even for polls that miss some backends
  (`ProxySync.LargePoolsAreNeverReweighted`).
- The comment on the effective weight promises a neutral weight of 1.0 for a stale or missing score; the code uses 1/n
  (`RouterChoice.StaleWeight`).
- A failed expiry job is kept as a record only until 200 later ones are on record with it, and that is the exact
  condition, also in interleaved runs (`HoldExpiryProtocol.PendingBookingsKeepTheirJob`). There is a run that ends with
  a pending booking that has neither a job nor a record (`HoldExpiryRecords.RecordsAreForgotten`).
- With concurrent records the count of recent 5xx is exact if and only if no expired record got the lock after a
  recent one (`ServerHealth.QueryNeverUndercounts`), and the error rate can exceed one
  (`ServerHealth.ErrorRateCanExceedOne`).
- The rate limiter admits up to 2 MAX - 1 requests within one window, and no more (`RateLimiter.WindowBound`,
  `RateLimiter.BoundIsAttained`).
- The latency average can return to the "no sample yet" value after a sample below 10 ns
  (`LatencyEma.SentinelReturns`).
- Substituted values are searched again by the later substitutions, so a field can end up wrong
  (`ConnectorTemplate.UserFieldCanBeWrong`); `ConnectorTemplate.ReadsBackIff` and
  `ConnectorTemplate.UserFieldIffFewUnderscores` say when.

One difference is an assumption of the model, not a result: the comment on job ids says that scheduling an id again
replaces the job, whereas BullMQ, as assumed here, leaves the existing job as it is (`HoldExpiry.Schedule`).

## Model

| member | source | states |
|---|---|---|
| BookingModel.SeatStatusMeaning | backend/src/modules/booking/infrastructure/seat.repository.ts:29-93 | Under the seat/booking correspondence: a seat is held iff it has exactly one pending and no confirmed booking, booked iff exactly one confirmed and no pending one, available iff neither |
| BookingModel.ApplyAdvances | backend/src/modules/booking/infrastructure/seat.repository.ts:29-93 | No use case deletes a booking or changes its seat, owner or deadline; its status moves only pending to confirmed, cancelled or expired, and confirmed to cancelled |
| BookingModel.ApplyKeepsConsistent | backend/src/modules/booking/application/confirm-booking.usecase.ts:39-64 | Every use case run alone keeps the correspondence, never ends in state drift and never expires a booking without releasing its seat |
| BookingModel.ReserveKeepsConsistent | backend/src/modules/booking/application/reserve-seat.usecase.ts:28-40 | A successful reserve keeps the correspondence |
| BookingModel.SettleKeepsConsistent | backend/src/modules/booking/application/cancel-booking.usecase.ts:31-54 | A confirm, cancel or expire whose booking UPDATE matches finds its seat in the expected status and keeps the correspondence |
| BookingModel.LostReportsARealStatus | backend/src/modules/booking/application/cancel-booking.usecase.ts:56-59 | A lost confirm never reports pending or an unknown status; a lost cancel reports cancelled or expired |
| BookingModel.DriftIsReported | backend/src/modules/booking/application/confirm-booking.usecase.ts:50-61 | On any tables, also drifted ones: a confirm of a pending booking succeeds iff the seat is held, a cancel of an active one iff it is held or booked; otherwise they report drift and change nothing; an expiry expires the booking all the same and leaves such a seat alone |
| BookingStore.SeatUpdate | backend/src/modules/booking/infrastructure/seat.repository.ts:23-37 | A guarded seat UPDATE returns a row iff the seat exists in an accepted status, changes no other seat, bumps the version by one when it matches and nothing when it does not |
| BookingStore.Store.ReserveSeatRow | backend/src/modules/booking/infrastructure/seat.repository.ts:29-37 | available to held, version + 1, else null |
| BookingStore.Store.ReleaseSeatRow | backend/src/modules/booking/infrastructure/seat.repository.ts:50-58 | held to available, version + 1, else null |
| BookingStore.Store.ConfirmSeatRow | backend/src/modules/booking/infrastructure/seat.repository.ts:67-75 | held to booked, version + 1, else null |
| BookingStore.Store.ReleaseHeldOrBookedSeatRow | backend/src/modules/booking/infrastructure/seat.repository.ts:85-93 | held or booked to available, version + 1, else null |
| BookingStore.Store.ReserveSeat | backend/src/modules/booking/application/reserve-seat.usecase.ts:14-40 | The statements leave the tables and give the answer of the atomic reserve: not found, unavailable, or a held seat with a new pending booking |
| BookingStore.Store.ConfirmBooking | backend/src/modules/booking/application/confirm-booking.usecase.ts:19-72 | The statements, with rollback on the throw, equal the atomic confirm |
| BookingStore.Store.CancelBooking | backend/src/modules/booking/application/cancel-booking.usecase.ts:18-59 | The statements, with rollback on the throw, equal the atomic cancel |
| BookingStore.Store.ExpireHold | backend/src/modules/booking/application/expire-hold.usecase.ts:24-42 | The statements equal the atomic expiry, which loses silently when the booking is not pending |
| BookingProtocol.WonBookingMeansFreeSeat | backend/src/modules/booking/application/confirm-booking.usecase.ts:50-61 | Once a transaction has won its booking row, the seat row is in the expected status and locked by nobody |
| BookingProtocol.CommitIsAtomic | backend/src/modules/booking/application/confirm-booking.usecase.ts:39-64 | A COMMIT changes the tables, and answers, exactly as the atomic operation run at that moment would |
| BookingProtocol.CommitLeavesOthers | backend/src/modules/booking/application/expire-hold.usecase.ts:25-41 | What another open transaction relies on (its rows, their statuses, its new id) survives a commit |
| BookingProtocol.NextKeepsInv | backend/src/modules/booking/infrastructure/seat.repository.ts:23-37 | Every statement, abort and commit, heard or not, of any caller keeps the protocol invariant |
| BookingProtocol.InvAlways | backend/src/modules/booking/infrastructure/seat.repository.ts:23-93 | The invariant, with the seat/booking correspondence in it, holds after every run from any consistent tables |
| BookingRefinement.StepRefines | backend/src/modules/booking/application/confirm-booking.usecase.ts:24-72 | Each step is one atomic operation with its answer, or leaves the committed tables alone |
| BookingRefinement.RunRefinesSerialRun | backend/src/modules/booking/application/cancel-booking.usecase.ts:22-59 | Every interleaved run, with any aborts, has the committed tables of a serial run of the same calls, in which each call answers what it answers when run alone |
| BookingRefinement.AnswersComeFromSerialRun | backend/src/modules/booking/application/reserve-seat.usecase.ts:14-40 | Each caller appears at most once in that serial run, with its own call, and what it was told is its entry's answer |
| BookingRefinement.SerialOrderIsRealTime | backend/src/modules/booking/application/reserve-seat.usecase.ts:14-40 | A caller that was answered before another one started comes before it in the serial run |
| BookingRefinement.NoSeatIsSoldTwice | backend/src/modules/booking/infrastructure/seat.repository.ts:23-37 | In every reachable committed state: held, booked and available each hold iff the seat has exactly the bookings they stand for |
| BookingRefinement.DriftIsUnreachable | backend/src/modules/booking/application/cancel-booking.usecase.ts:42-51 | In no run does a confirm or cancel throw state drift, nor an expiry commit with a null seat |
| BookingRefinement.StatusesOnlyAdvance | backend/src/modules/booking/infrastructure/seat.repository.ts:29-93 | Between any two points of a run, statuses only move forward and seat, owner and deadline stay |
| BookingRefinement.LostCallersHearTheTruth | backend/src/modules/booking/application/confirm-booking.usecase.ts:66-72 | In any run a lost confirm is never told pending or unknown, and a lost cancel is told only cancelled or expired |
| BookingRefinement.NeverDeadlocked | backend/src/modules/booking/application/confirm-booking.usecase.ts:39-64 | While any caller is unfinished some caller can take its next statement: the lock order excludes deadlock |
| BookingRefinement.RunsAreBounded | backend/src/modules/booking/application/reserve-seat.usecase.ts:28-40 | n callers take at most 7 n steps together, so no run goes on for ever |
| BookingRefinement.MaximalRunsFinishEveryCaller | backend/src/modules/booking/application/expire-hold.usecase.ts:25-41 | A run that cannot continue has answered or failed every caller |
| BookingRefinement.FirstReserveWins | backend/src/modules/booking/application/reserve-seat.usecase.ts:28-32 | In a serial run of reserves of one available seat the first gets it and every other is told it is unavailable |
| BookingRefinement.OneWinnerPerSeat | backend/src/modules/booking/infrastructure/seat.repository.ts:23-37 | N callers race for one available seat, none crashes, all run to their end: exactly one gets it and the other N - 1 are told it is unavailable |
| BookingOwnership.StrangersAreTurnedAway | backend/src/modules/booking/application/confirm-booking.usecase.ts:24-31 | In any interleaved run, a confirm or cancel that has not started when its booking is in the tables with another owner never writes anything, is told nothing but "booking not found", and has no other entry in the serial run |
| BookingOwnership.OwnersAreFound | backend/src/modules/booking/application/cancel-booking.usecase.ts:22-29 | A confirm or cancel of the caller's own booking is never told so |
| BookingOwnership.OnlyOwnersConfirmAndCancel | backend/src/modules/booking/application/confirm-booking.usecase.ts:24-43 | In any interleaved run, a booking that became confirmed (cancelled) has a confirm (cancel) by its own user in the serial run, answered as done |
| BookingOwnership.ReservationsAreTheCallers | backend/src/modules/booking/application/reserve-seat.usecase.ts:14-37 | In any interleaved run, a reserve that got a seat has a booking for the caller's own user, seat and deadline; one is told "no such seat" iff the seat does not exist; and there is no third answer but unavailable |
| BookingOwnership.LockedRowsThatDoNotMatchAreSkipped | backend/src/modules/booking/infrastructure/seat.repository.ts:23-37 | A reserve whose snapshot shows the seat taken is answered at once, whoever has locked the row |
| BookingAccounting.EntryEffect | backend/src/modules/booking/infrastructure/seat.repository.ts:29-93 | Each operation changes nothing, or moves one booking and adds one to the version of that booking's seat only |
| BookingAccounting.VersionCountsMoves | backend/src/modules/booking/infrastructure/seat.repository.ts:29-93 | Over a serial run a seat's version grows by the moves its bookings made |
| BookingAccounting.MovesByStatus | backend/src/modules/booking/infrastructure/seat.repository.ts:29-93 | A booking made in the run has made 1 move if pending, 2 if confirmed or expired, and if cancelled 3 or 2 according to whether it was ever confirmed |
| BookingAccounting.VersionAccounting | backend/src/modules/booking/infrastructure/seat.repository.ts:29-93 | In any interleaved run a seat's version minus its initial value is the sum of its bookings' moves, and each booking made in the run has made 1 move if pending, 2 if confirmed or expired, 2 or 3 if cancelled according to whether it was ever confirmed |
| HoldExpiry.HoldExpiryQueue.ScheduleHoldExpiry | backend/src/infrastructure/queue/hold-expiry.queue.ts:23-46 | The job is due at the later of now and the deadline, under an id derived from the booking; an id already queued is left alone |
| HoldExpiry.HoldExpiryQueue.OnFailed | backend/src/infrastructure/queue/hold-expiry.worker.ts:46-65 | A failed attempt is retried with backoff until the third, which moves the job to the bounded failed list and is the only one counted as a failure |
| HoldExpiry.HoldExpiryQueue.Remove | backend/src/modules/booking/application/cancel-booking.usecase.ts:66-76 | A waiting job is removed, or else the record of its failure; a running job is locked and stays |
| HoldExpiry.FailKeepsQueueOk | backend/src/infrastructure/queue/hold-expiry.queue.ts:42-44 | A failure keeps: at most 200 failed jobs, and every recent one whose booking is pending |
| HoldExpiry.RemoveKeepsQueueOk | backend/src/modules/booking/application/cancel-booking.usecase.ts:66-76 | Removing a cancelled booking's job keeps the same |
| HoldExpiry.InvAlways | backend/src/infrastructure/queue/hold-expiry.worker.ts:17-65 | In every run of uses, clock ticks, job runs, failures and removals, each queued job belongs to a booking of this run and is not due before its hold ends |
| HoldExpiry.NeverExpiresEarly | backend/src/infrastructure/queue/hold-expiry.queue.ts:23-31 | No booking made by a reserve is expired before its holdExpiresAt |
| FailureRecords.KeptIff | backend/src/infrastructure/queue/hold-expiry.queue.ts:41-44 | The bounded list holds the record of a failed job iff it was not removed and no moment had 200 later ones on record with it; and then at least 200 jobs failed after it |
| HoldExpiryRecords.PendingBookingsKeepTheirJob | backend/src/infrastructure/queue/hold-expiry.queue.ts:33-44 | A pending booking whose job was added has it waiting, running or kept as failed iff no moment of the run had 200 later failures on record with its own; certainly while no more than 200 jobs have failed for good |
| HoldExpiryRecords.UntouchedPendingBookings | backend/src/infrastructure/queue/hold-expiry.queue.ts:33-44 | If no cancel removed a record, that is: iff fewer than 200 jobs failed for good after its own |
| HoldExpiryRecords.RecordsAreForgotten | backend/src/infrastructure/queue/hold-expiry.queue.ts:44 | From any tables, for any 201 different free seats, any user and any length of hold, there is a run at whose end a booking is pending, its job was added, and neither a job nor a record of it is left |
| HoldExpiry.DueJobReclaimsTheSeat | backend/src/infrastructure/queue/hold-expiry.worker.ts:19-36 | A job that runs while the booking is pending expires it, makes the seat available, and is then removed |
| HoldExpiryRetries.RetriesWait | backend/src/infrastructure/queue/hold-expiry.queue.ts:42-43 | In every run an attempt starts no earlier than the end of its hold, 5000 ms after the first failure of its job and 10000 ms after the second, and there is no fourth attempt |
| HoldExpiryRetries.RetryIsDue | backend/src/infrastructure/queue/hold-expiry.queue.ts:43 | And no later: a waiting retry becomes due exactly 5000 or 10000 ms after the failure |
| HoldExpiryRetries.GivingUpTakesFifteenSeconds | backend/src/infrastructure/queue/hold-expiry.worker.ts:46-56 | A job that failed for good failed three times, the last time at least 15000 ms after the first |
| HoldExpiryRetries.ShortOutagesAreSurvived | backend/src/infrastructure/queue/hold-expiry.queue.ts:33-43 | If all failures of a job fall into a span of less than 15000 ms, it has not failed for good |
| HoldExpiryRetries.FirstAttemptIsOnTime | backend/src/infrastructure/queue/hold-expiry.queue.ts:24-31 | With no lag, a job is due exactly when its hold ends, or at once if that is over |
| HoldExpiryRetries.ReschedulingKeepsTheJob | backend/src/infrastructure/queue/hold-expiry.queue.ts:31 | Scheduling a booking whose job is queued leaves the job as it is, waiting or running; otherwise a first attempt waits |
| HoldExpiryRetries.RemovalTakesTheJob | backend/src/modules/booking/application/cancel-booking.usecase.ts:66-76 | After a removal the booking has a job iff one was running, no record if it had no job, and all other jobs and records are as before |
| HoldExpiryRetries.LateJobIsHarmless | backend/src/modules/booking/application/cancel-booking.usecase.ts:61-65 | A job that runs for a booking that is no longer pending changes no table |
| HoldExpiryProtocol.InvAlways | backend/src/infrastructure/queue/hold-expiry.worker.ts:17-38 | With every attempt of a job a caller of the interleaved protocol: no attempt starts before its booking's hold is over, in any run |
| HoldExpiryProtocol.NeverExpiresEarly | backend/src/modules/booking/application/expire-hold.usecase.ts:24-42 | In every interleaved run with any aborts, crashes and retries, a booking that became expired is past its holdExpiresAt |
| HoldExpiryProtocol.RetriesWait | backend/src/infrastructure/queue/hold-expiry.queue.ts:42-43 | In every interleaved run the same delays: 5000 ms after the first failure, 10000 ms after the second |
| HoldExpiryProtocol.PendingBookingsKeepTheirJob | backend/src/infrastructure/queue/hold-expiry.worker.ts:17-65 | In every interleaved run a pending booking whose job was added has it waiting, running or kept as failed iff no moment had 200 later failures on record with its own |
| RateLimiter.RedisKey.DoIncr | backend/src/shared/middleware/rateLimiter.ts:45 | INCR keeps a live key's TTL and starts an expired one again at 1 without a TTL |
| RateLimiter.RedisKey.DoExpireNx | backend/src/shared/middleware/rateLimiter.ts:56 | EXPIRE NX sets a deadline only on a live key that has none |
| RateLimiter.RedisKey.RateLimit | backend/src/shared/middleware/rateLimiter.ts:45-60 | One request alone is admitted iff its count is at most MAX, and leaves the key with a deadline or gone |
| RateLimiter.InvAlways | backend/src/shared/middleware/rateLimiter.ts:45-60 | In any interleaving with any crashes, counts rise within a life of the key, and a later life starts at least a window after the INCR that opened the earlier one |
| RateLimiter.TwoLivesPerWindow | backend/src/shared/middleware/rateLimiter.ts:47-56 | INCRs within one window belong to at most two lives, and if to two, the earlier was opened before the window |
| RateLimiter.WindowBound | backend/src/shared/middleware/rateLimiter.ts:45-60 | Of the requests that INCR the key within any half-open window at most 2 MAX - 1 are admitted, for any run with any crashes; none if MAX is 0 |
| RateLimiter.BoundIsAttained | backend/src/shared/middleware/rateLimiter.ts:45-60 | For every MAX > 0 and window > 1 there is a run that admits exactly 2 MAX - 1 within one window |
| RateLimiter.NoTtlMeansNobodyExpired | backend/src/shared/middleware/rateLimiter.ts:47-56 | While a live key has no TTL, every request that has run its EXPIRE counted in an earlier life, so the next EXPIRE heals the key |
| Scoreboard.MathsExists | router-core/src/scoreboard.rs:159-173 | The laws assumed of exp (positive, strictly increasing, exp(0) = 1, exp(-1) at least 0.366, exp(-0.99) at most 0.372) and of sqrt (strictly increasing from sqrt(0) = 0) are met by two given functions |
| Scoreboard.ScoreboardState.WithServers | router-core/src/scoreboard.rs:65-80 | Each listed server starts with weight 1/n, no risk and its last listed domain |
| Scoreboard.ScoreboardState.UpdateScores | router-core/src/scoreboard.rs:132-236 | The loops compute `Updated`: smoothing, shift clamp, caps, floor and normalisation, in any hash-map order |
| Scoreboard.ScoreboardState.RefreshScore | router-core/src/scoreboard.rs:153-190 | A predicted server gets the effective risk, the health memory and the clamped smoothed weight |
| Scoreboard.ScoreboardState.IntroduceUnknown | router-core/src/scoreboard.rs:197-219 | A server known only from the predictions is added in domain 0 with its raw weight; known ones stay |
| Scoreboard.ScoreboardState.DomainTotals | router-core/src/scoreboard.rs:259-263 | One pass over the servers gives each domain's total, and an entry for exactly the domains that have servers |
| Scoreboard.ScoreboardState.ApplyDomainCaps | router-core/src/scoreboard.rs:256-283 | Whatever the order of the domains, each server ends scaled once, by its own domain's factor computed from the totals before capping |
| Scoreboard.ScoreboardState.ApplyFloor | router-core/src/scoreboard.rs:224-229 | Every weight is raised to min_weight, no other field changes |
| Scoreboard.ScoreboardState.NormaliseWeights | router-core/src/scoreboard.rs:286-293 | Every weight is divided by the total before the loop, if that is positive |
| ScoreboardFloor.InitialIsShares | router-core/src/scoreboard.rs:65-80 | The first weights are not negative and add up to at most 1, exactly 1 for a non-empty list of distinct servers |
| ScoreboardFloor.LastListedDomain | router-core/src/scoreboard.rs:69-74 | A server listed more than once starts in the domain it is listed with last |
| ScoreboardFloor.UpdateGivesDistribution | router-core/src/scoreboard.rs:175-236 | For a floor m > 0: after an update of n known and k new servers all weights are positive, sum to 1 and are at least m / ((1+s)(1+n m) + k max(1, m)) |
| ScoreboardFloor.RunsKeepTheFloor | router-core/src/scoreboard.rs:175-236 | The same after every update of every run from with_servers on |
| ScoreboardPositive.UpdateStaysPositive | router-core/src/scoreboard.rs:175-236 | For any floor, also 0, if rates are rates and the cap is not 0: an update of positive weights leaves positive weights that sum to 1 |
| ScoreboardPositive.RunsStayPositive | router-core/src/scoreboard.rs:175-236 | So does every run from with_servers on |
| ScoreboardFloor.FloorIsBelowMinWeight | router-core/src/scoreboard.rs:224-232 | The share that is guaranteed is positive and strictly below min_weight |
| ScoreboardFloor.BelowMinWeightIff | router-core/src/scoreboard.rs:224-232 | An update leaves a server below min_weight iff its floored weight is less than min_weight times the floored total; a server lifted to the floor iff that total exceeds 1 |
| ScoreboardFloor.NormalisedSumsToOne | router-core/src/scoreboard.rs:286-293 | Normalising a positive total gives weights that sum to exactly 1 |
| ScoreboardDominance.ShiftMonotone | router-core/src/scoreboard.rs:175-183 | Smoothing and shift clamp keep the order of two servers, for any shift fraction |
| ScoreboardDominance.EffectiveRiskMonotone | router-core/src/scoreboard.rs:159-164 | More predicted risk and more uncertainty never lower the effective risk, if lambda is not negative |
| ScoreboardDominance.UpdateKeepsDominance | router-core/src/scoreboard.rs:132-236 | One update keeps w_a <= w_b and health_a >= health_b for two servers of a domain when it sees at least as much risk and error in a |
| ScoreboardDominance.RunKeepsDominance | router-core/src/scoreboard.rs:132-236 | So does any run of such updates, whatever they say about other servers |
| ScoreboardResponse.RawWeightStrict | router-core/src/scoreboard.rs:171-173 | Strictly more risk, or strictly more error in the memory, is a strictly smaller raw weight |
| ScoreboardResponse.RawWeightSeparates | router-core/src/scoreboard.rs:171-173 | Without memory the raw weight is exp(-risk), without risk exp(-health), and neither input changes what the other does |
| ScoreboardResponse.InRange | router-core/src/scoreboard.rs:159-169 | For a prediction in range: the effective risk is the mean plus lambda standard deviations, up to one, and the memory moves the fraction beta of the way to the error rate |
| ScoreboardResponse.OutOfRangeActsAsNearest | router-core/src/scoreboard.rs:154-157 | A field out of range acts as the nearest value in range, for known and for new servers |
| ScoreboardResponse.UncertaintyIsRisk | router-core/src/scoreboard.rs:159-164 | With lambda > 0 a strictly larger variance is a strictly larger effective risk, short of one |
| ScoreboardResponse.HealthStrict | router-core/src/scoreboard.rs:166-169 | A strictly higher error rate, or a strictly worse memory, leaves a strictly worse memory |
| ScoreboardResponse.HealthForgets | router-core/src/scoreboard.rs:166-169 | Over k updates that all predict the same error rate, what is left of the difference between memory and rate is (1-beta)^k of it |
| ScoreboardResponse.UpdatedRecord | router-core/src/scoreboard.rs:150-219 | What an update stores of each server: time, risk, confidence, memory and domain of a predicted one, all but the weight unchanged of any other |
| ScoreboardResponse.ShiftStopsAtBounds | router-core/src/scoreboard.rs:175-183 | The new raw weight is the smoothed one within s max(w, m) of the old weight, and stops at that distance |
| ScoreboardResponse.ShiftIsStrictIff | router-core/src/scoreboard.rs:175-183 | From one old weight, a strictly larger target gives a strictly larger weight iff the clamp does not stop both at the same end |
| ScoreboardResponse.AlphaFallsWithLoad | router-core/src/scoreboard.rs:140-145 | The smoothing rate stays within its limits and never rises with the load |
| ScoreboardResponse.DefaultRates | router-core/src/types.rs:188-202 | By default it is 0.3 when idle, 0.15 at half load and 0.05 at full load |
| ScoreboardResponse.BusyClusterMovesLess | router-core/src/scoreboard.rs:140-183 | At a higher load a weight moves in the same direction and no further |
| ScoreboardResponse.WorseServerWeighsLessIff | router-core/src/scoreboard.rs:132-236 | Of two predicted servers of equal weight in one domain, the one with more risk, errors or memory of them ends with the strictly smaller weight iff the clamp does not stop both at the same end and the better one stays above the floor |
| ScoreboardResponse.WorseNewcomerStartsLower | router-core/src/scoreboard.rs:197-218 | A server known only from the predictions starts from the raw weight of its own risk and errors; of two, the one with strictly more of either starts strictly lower, and ends strictly lower iff the better one stays above the floor |
| ScoreboardResponse.LargerStaysLargerIff | router-core/src/scoreboard.rs:221-232 | Of two servers of one domain the larger raw weight ends strictly larger iff it is and stays above the floor once capped |
| ScoreboardDomains.CappedDomainTotal | router-core/src/scoreboard.rs:256-283 | Capping leaves each domain with total min(D, cap T) |
| ScoreboardDomains.CappedTotalAtMost | router-core/src/scoreboard.rs:251-283 | Capping never adds weight: nothing is redistributed by this step |
| ScoreboardDomains.NeverOvershoots | router-core/src/scoreboard.rs:256-293 | However many domains are over, capping and normalising never take one from the cap or above to below it, nor from above the cap to the cap |
| ScoreboardDomains.StaysOverCap | router-core/src/scoreboard.rs:270-293 | Every over-cap domain is strictly over the cap again after the two steps |
| ScoreboardDomains.PassMeetsCapIff | router-core/src/scoreboard.rs:256-293 | After capping and normalising every domain is within the cap iff every domain was before |
| ScoreboardDomains.PassesMeetCapIff | router-core/src/scoreboard.rs:256-293 | The same for any number of passes |
| ScoreboardDomains.UpdateMeetsCapIff | router-core/src/scoreboard.rs:221-232 | An update in which no capped weight is below the floor meets the cap iff its raw weights did |
| ScoreboardDomains.PassesNeverOvershoot | router-core/src/scoreboard.rs:256-293 | Nor does any number of passes |
| ScoreboardDomains.LoneDomainShare | router-core/src/scoreboard.rs:270-293 | The only over-cap domain, of share x < 1, moves to cap/(cap+1-x), in [cap, x), and on the cap only if that is 0 |
| ScoreboardDomains.PassesConverge | router-core/src/scoreboard.rs:270-293 | While it stays the only one, its excess over the cap after k passes is at most x^k times the first excess |
| ScoreboardDomains.SpreadConverges | router-core/src/scoreboard.rs:270-293 | If no other domain holds more than the fraction cap/(1-cap) of what is outside it, it stays the only one over the cap in every pass, and its excess after k passes is positive and at most x^k times the first |
| ScoreboardDomains.UpdateIsPass | router-core/src/scoreboard.rs:221-232 | An update in which no capped weight is below the floor is such a pass over the raw weights |
| ScoreboardDomains.CapCancelsInOneDomain | lb-proxy/src/proxy.rs:84-90 | In a pool of one domain capping and normalising equals normalising alone |
| ScoreboardDomains.UpdateMovesWithinRatio | router-core/src/scoreboard.rs:175-236 | In such a pool, all predicted, all weights at least m and no floor hit: one update takes w into [w(1-s)/(1+s), w(1+s)/(1-s)] |
| ScoreboardDomains.UniformStaysUniform | router-core/src/scoreboard.rs:178-236 | If cap (1+s) max(1/n, m) <= m and cap < 1, a uniform pool of one domain stays uniform whatever is predicted |
| ScoreboardDomains.UniformForever | router-core/src/scoreboard.rs:178-236 | And so for every run |
| ScoreboardSaturation.RawIsFullShift | router-core/src/scoreboard.rs:167-183 | If even the least possible raw weight pulls a server up by the whole allowed shift, its clamped weight does not depend on the prediction |
| ScoreboardSaturation.SaturatedForever | router-core/src/scoreboard.rs:175-236 | Then a uniform pool of one domain, all predicted each time, stays uniform in every run |
| ProxySync.ProxyState.constructor | lb-proxy/src/proxy.rs:82-110 | The proxy starts with backends 0 to n-1 in one domain, equal weights, the default configuration and nothing measured |
| ProxySync.ProxyState.Predict | lb-proxy/src/proxy.rs:174-211 | The loop gives every backend its prediction: neutral if never measured, else risk from the latency average, and confidence and error rate |
| ProxySync.ProxyState.SyncScoreboard | lb-proxy/src/proxy.rs:173-215 | The scoreboard is updated with exactly those predictions at load 0 |
| ProxySync.RiskIsShare | lb-proxy/src/proxy.rs:194-203 | Against a positive target the risk is ema/(slo+ema), in [0, 1) |
| ProxySync.HigherLatencyHigherRisk | lb-proxy/src/proxy.rs:194-203 | The risk is strictly higher iff the latency average is |
| ProxySync.NoTargetMeansFullRisk | lb-proxy/src/proxy.rs:194-203 | With a target of zero every measured backend has risk 1 |
| ProxySync.NoUncertainty | lb-proxy/src/proxy.rs:180-207 | Under any configuration, risk-averse or not, the effective risk of a backend is that of its latency, and 0 if it was never measured |
| ProxySync.PollRecords | lb-proxy/src/proxy.rs:180-214 | What a poll stores of a backend: the time, full confidence from ten requests on and a tenth for each before, the risk of its latency, a tenth of its error rate in the memory; no risk, confidence or error for one never measured |
| ProxySync.SlowerNeverOvertakes | lb-proxy/src/proxy.rs:173-215 | From start-up on and for any latency target, a backend that at every poll was no faster and failed no less than another one never gets the larger weight |
| ProxySync.LargePoolsAreNeverReweighted | lb-proxy/src/proxy.rs:84-90 | With the default configuration and 15 or more backends every weight is 1/n after every run of polls, even polls that miss backends |
| ProxySync.TenBackendsAreNeverReweighted | lb-proxy/src/proxy.rs:84-90 | When every poll covers the pool, as the proxy's do, 10 backends are enough |
| ProxySmallPools.ManyBadPolls | lb-proxy/src/proxy.rs:173-215 | After k polls in which every backend is equally bad all weights are 1/n, and the common health is within 9/(9+k) of the worst |
| ProxySmallPools.SmallPoolIsReweighted | lb-proxy/src/proxy.rs:173-215 | With 2 to 9 backends there are polls of the whole pool after which a recovered backend weighs strictly more than a bad one |
| ProxySmallPools.NeverReweightedIff | lb-proxy/src/proxy.rs:84-90 | With the default configuration all weights stay 1/n under every run of polls of the whole pool iff there is one backend or at least ten |
| ProxySensitivity.ErrorsAloneReweight | lb-proxy/src/proxy.rs:197-207 | With 2 to 9 backends there are polls of the whole pool that measure equal latencies and differ only in error rates, after which the backend without errors weighs strictly more |
| ProxySensitivity.LatenciesAloneReweight | lb-proxy/src/proxy.rs:194-203 | And polls with equal error rates that differ only in latency, after which the faster backend weighs strictly more |
| ProxySensitivity.BlindIff | lb-proxy/src/proxy.rs:84-90 | A pool never changes a weight under polls that differ only in errors iff it has one backend or at least ten, and the same for polls that differ only in latency |
| ProxySync.ManyBackendsEndBelowMinWeight | router-core/src/scoreboard.rs:224-232 | With the default configuration and 34 or more backends every weight is below min_weight after every run of polls |
| ProxySync.ProxyNeverMeetsCap | lb-proxy/src/proxy.rs:84-90 | With the default configuration the proxy's one domain is over the cap at the start and after every run of polls |
| Router.XorShiftInjective | router-core/src/router.rs:206-213 | One step of the generator is injective on 64-bit words |
| Router.XorShiftNeverZero | router-core/src/router.rs:206-213 | It maps only zero to zero, so a non-zero state never becomes zero |
| Router.Router.constructor | router-core/src/router.rs:66-80 | The seed's lowest bit is set, so the first state is not zero |
| Router.Router.FastRandomIndex | router-core/src/router.rs:206-213 | The index is the new state modulo n, and the state stays non-zero |
| RouterDraws.ValueBound | router-core/src/router.rs:212 | A list of n bits denotes a number below 2^n |
| RouterDraws.ValueInjective | router-core/src/router.rs:212 | Different words denote different numbers |
| RouterDraws.BitsHaveValue | router-core/src/router.rs:212 | Every number below 2^n is denoted by n bits |
| RouterDraws.ShlValue | router-core/src/router.rs:208-210 | The value of a word shifted left by k is its value times 2^k modulo 2^64 |
| RouterDraws.ShrValue | router-core/src/router.rs:209 | The value of a word shifted right by k is its value divided by 2^k |
| RouterDraws.StepFromOne | router-core/src/router.rs:206-211 | The generator steps from 1 to the number that the shifts by 13, 7 and 17 give |
| RouterDraws.DrawnBelowAre | router-core/src/router.rs:212 | Of the first m numbers, an index below n is drawn by m / n, rounded down or up |
| RouterDraws.DrawsAreEven | router-core/src/router.rs:206-213 | For every n each index is drawn by 2^64 / n of the 64-bit words, rounded down or up |
| Router.OverrideOnlyLowers | router-core/src/router.rs:153-198 | The safety override stays within (0, base], acts iff a threshold is exceeded, and more violations weigh at most a tenth |
| Router.EachViolationIsATenth | router-core/src/router.rs:183-197 | The base weight is multiplied by 0.1 for each of the three thresholds that is exceeded, and by nothing for a server without signals |
| Router.Router.ChooseServer | router-core/src/router.rs:103-143 | None without servers, the only one of one, else the heavier of two distinct random candidates, a collision moving the second on by one |
| Router.PairCount | router-core/src/router.rs:115-142 | With distinct weights, a server with k lighter ones is chosen by exactly 2k of the n^2 raw index pairs, plus one if its successor is lighter, plus one if its predecessor is |
| Router.ChoiceBounds | router-core/src/router.rs:115-142 | So by between 2k and 2k + 2 |
| Router.LightestNeverChosen | router-core/src/router.rs:137-142 | A server strictly lighter than all others is never chosen |
| RouterChoice.FreshWeight | router-core/src/router.rs:161-163 | A quiet server whose score is younger than the ttl weighs what the scoreboard says |
| RouterChoice.StaleWeight | router-core/src/router.rs:164-169 | One whose score is missing or at least that old weighs 1/n |
| RouterChoice.FreshChoice | router-core/src/router.rs:115-142 | Of two quiet candidates with fresh scores the one with the larger scoreboard weight is chosen, the first one if they are equal |
| RouterChoice.StaleChoice | router-core/src/router.rs:161-169 | If no score is fresh and no threshold exceeded, the first candidate is chosen whatever the weights |
| RouterChoice.PredictedAreStamped | router-core/src/scoreboard.rs:185-189 | An update stamps every server it predicts with its own time |
| RouterChoice.UpdateSteersTheChoice | router-core/src/router.rs:103-143 | From an update that predicts all servers until its scores go stale, quiet candidates are compared by the updated weights and the lightest server is never chosen; from then on the first candidate is |
| ServerHealth.PrunedCount | lb-proxy/src/health.rs:141-148 | Lazy pruning never undercounts, and counts exactly iff in the recorded history no expired timestamp comes after a recent one, as clock order guarantees |
| ServerHealth.QueryNeverUndercounts | lb-proxy/src/health.rs:57-93 | However records and queries interleave, a query counts at least the recent 5xx, and exactly those iff no expired record got the lock after a recent one |
| ServerHealth.OutOfOrderOvercounts | lb-proxy/src/health.rs:57-70 | Out of clock order it can count an expired one |
| ServerHealth.ConcurrentErrorRate | lb-proxy/src/health.rs:97-108 | With concurrent records the errors counted do not outnumber the requests counted if every error was pushed as a request before and no expired error got the lock after a recent one |
| ServerHealth.ErrorRateCanExceedOne | lb-proxy/src/health.rs:57-108 | Otherwise they can: a concrete order of two failed requests gives one request and two errors |
| ServerHealth.ErrorsAreRequests | lb-proxy/src/health.rs:97-108 | The recent 5xx, even counted later, never outnumber the recent requests |
| ServerHealth.Health.PruneDeque | lb-proxy/src/health.rs:141-148 | The loop drops the leading entries that are older than the window and nothing else |
| ServerHealth.Health.Record | lb-proxy/src/health.rs:57-74 | A record adds one observation to the history that the two deques track |
| ServerHealth.Health.FiveXxCount | lb-proxy/src/health.rs:87-93 | In sequential use the count is the number of all 5xx ever recorded that are at most the window old |
| ServerHealth.Health.ErrorRate | lb-proxy/src/health.rs:97-108 | In sequential use the rate is recent 5xx over recent requests, 0 without requests, and in [0, 1] |
| LatencyEma.UpdateLatencyEma | lb-proxy/src/health.rs:120-138 | However often the exchange fails, what is written is the next value over the value that was there |
| LatencyEma.CellIsFold | lb-proxy/src/health.rs:120-138 | Under any interleaving the cell is the fold of the samples in the order of the successful exchanges, each finished thread's sample once |
| LatencyEma.EmaTracksExact | lb-proxy/src/health.rs:124-129 | For samples of at least 10 ns and at most u64::MAX/9 the integer never exceeds the exact 0.9/0.1 average and is less than 18 ns below it, for any number of samples |
| LatencyEma.EmaStaysInRange | lb-proxy/src/health.rs:124-129 | The next value always fits 64 bits, for any samples: the sum never overflows |
| LatencyEma.SentinelReturns | lb-proxy/src/health.rs:124-129 | The average becomes the sentinel 0 again iff it was 1 and the sample is below 10, and the next sample then replaces it whole |
| DrainReaper.DrainingServer.DrainReaperFor | backend/src/shutdown.ts:66-91 | Attaching is idempotent: requests are heard from the first attach on |
| DrainReaper.DrainingServer.OnRequest | backend/src/shutdown.ts:71-72 | A request adds one unfinished response, heard by the reaper iff its listener is attached by then |
| DrainReaper.DrainingServer.OnFinish | backend/src/shutdown.ts:71-81 | A heard finish while draining reaps every idle connection |
| DrainReaper.DrainingServer.CloseServer | backend/src/shutdown.ts:101-115 | Begins the drain and reaps what is idle at that moment |
| DrainReaper.DrainingServer.CloseIdleConnections | backend/src/shutdown.ts:75-80 | Closes exactly the connections without an unfinished response |
| DrainReaper.OnlyBusyConnectionsRemain | backend/src/shutdown.ts:66-121 | Once the server has stopped accepting, every open connection has an unfinished response, in every reachable state |
| DrainReaper.IdleWhileDrainingIsNew | backend/src/shutdown.ts:101-110 | An idle connection that is open at any time after the drain began was accepted since: right after its beginning none is open |
| DrainReaper.InFlightWorkIsNeverCut | backend/src/shutdown.ts:73-80 | No step but the client's own close ends a connection with an unfinished response |
| DrainReaper.ResolvesWithLastResponse | backend/src/shutdown.ts:101-115 | close() can resolve iff no response is unfinished |
| DrainReaper.DrainEnds | backend/src/shutdown.ts:66-121 | If clients send nothing more, as many finishes as there are unfinished responses end the drain |
| DrainReaper.WithoutFinishReapDrainHangs | backend/src/shutdown.ts:94-99 | A request whose event the reaper did not hear leaves an idle connection open for good |
| DrainReaper.FinishReapsIffTracked | backend/src/shutdown.ts:71-81 | A connection survives its last response iff that response was not tracked or no drain is on |
| ConnectorTemplate.JsonEscape | infra/connector/register-connector.sh:63-78 | The loop computes `Escape`, character by character |
| ConnectorTemplate.EscapeRoundTrip | infra/connector/register-connector.sh:63-78 | Decoding by section 7 of RFC 8259 returns the value and stops at the template's quote iff the value has no control character besides \n \t \r \b \f; otherwise it is refused |
| ConnectorTemplate.Replace | infra/connector/register-connector.sh:79-85 | The loop terminates and replaces every occurrence from left to right without searching what it put in |
| ConnectorTemplate.ReplaceAcrossQuote | infra/connector/register-connector.sh:79-85 | A placeholder never matches across a quote, so replacing works field by field |
| ConnectorTemplate.EscapeKeepsContains | infra/connector/register-connector.sh:63-78 | Escaping neither creates nor destroys an occurrence of a placeholder |
| ConnectorTemplate.Substitute | infra/connector/register-connector.sh:55-60 | The three replace calls in the source's order |
| ConnectorTemplate.FieldsAfterSubstitution | infra/connector/register-connector.sh:55-60 | For all values, each substitution fills its own field and touches besides it only values put in earlier |
| ConnectorTemplate.EscapeCommutesWithReplace | infra/connector/register-connector.sh:63-85 | Substituting an escaped value in an escaped text is substituting in the text and escaping the result |
| ConnectorTemplate.FieldsRead | infra/connector/register-connector.sh:50-86 | For all values: reading the filled template by section 7 of RFC 8259 gives, field by field, the values as rewritten by the later substitutions, or fails iff one of them has a control character without a short escape |
| ConnectorTemplate.EveryFieldReadsBack | infra/connector/register-connector.sh:50-86 | If no value contains a later placeholder, all three fields decode to the values meant for them, each ending at the template's own quote |
| ConnectorTemplate.ReadsBackIff | infra/connector/register-connector.sh:50-86 | Unless the two later substitutions cancel by every measure of texts: the configuration reads back as meant iff all values are escapable and no later substitution finds a placeholder that it does not put back |
| ConnectorTemplate.UserFieldIff | infra/connector/register-connector.sh:58-60 | Under the same proviso the user field is right iff neither later placeholder occurs in the user, or its value is the placeholder itself |
| ConnectorTemplate.UserFieldIffFewUnderscores | infra/connector/register-connector.sh:58-60 | With fewer than five underscores in the password and in the database name: iff the user contains neither later placeholder |
| ConnectorTemplate.UnchangedIff | infra/connector/register-connector.sh:79-85 | A substitution leaves a text alone iff it lacks the placeholder or the value is the placeholder |
| ConnectorTemplate.PasswordFieldIff | infra/connector/register-connector.sh:59-60 | The password field is right iff the password lacks the database placeholder or the database is called exactly that |
| ConnectorTemplate.UserFieldCanBeWrong | infra/connector/register-connector.sh:58-60 | A user called like the password placeholder, with password x and database y, gets the field content x, which is not its own |
| ConnectorTemplate.SubstitutionsCanCancel | infra/connector/register-connector.sh:58-60 | A user containing a later placeholder can still come out right, because two substitutions cancel |

## Left out

- ReadsBackIff, UserFieldIff: the condition suffices for all values (`RewrittenUserIff`). That it is necessary is stated for values whose two later substitutions do not add and take away in exactly balancing amounts; where they do, by every measure of texts at once, they can undo each other (`SubstitutionsCanCancel`), and no simpler test than performing them is given.
- EmaTracksExact: for samples of 10 ns to u64::MAX/9; below, the average can fall back to the sentinel (`SentinelReturns`); above, which is more than 65 years, the product saturates.
- RunsKeepTheFloor: for min_weight > 0; with a floor of zero there is no exploration floor to keep, and `ScoreboardPositive.RunsStayPositive` says what remains.
- RunKeepsDominance: for smoothing rates and a health memory within [0, 1], where both are averages.
- 32-bit versions and ids, u64 counters: unbounded integers in the model, except the saturating product in the latency average and the generator's 64-bit words.
- Floating point: rounding and NaN are not modelled; weights are real numbers, and exp and sqrt are any functions with the laws in `MathsOk`.
- PostgreSQL, Redis, BullMQ and Node: not modelled beyond the step rules stated in the modules (READ COMMITTED re-check, INCR and EXPIRE NX, delayed jobs with attempts, closing idle connections). BullMQ's stalled-job limit and Redis eviction are not modelled.
- Statement snapshots of a transaction that aborts on a constraint violation: any abort rolls back as one step.
- Kafka events, metrics and logs: publishing is outside the transactions and its failures are swallowed.
- DrainReaper: it is an assumption about Node that a connection which never sent a request counts as idle for closeIdleConnections. The order of the remaining shutdown steps and their timeouts are left out.
- Router: adding and removing servers, and the pairing of in-flight begin and decrement.
- update_single_server and the getters of the scoreboard: one-call wrappers.
- Clocks: time is an integer, and a comparison of instants is one of integers.
- HTTP forwarding, authentication, validation, the availability cache, the React client and the deployment files: no state or arithmetic of the kind proved here.
