# Verified models of the repository's protocols

This project models the components of the repository whose correctness depends on more than one
function body: the migration runner, the fixed-window rate limiter, the two circuit breakers, the
order service over the user service's credit ledger, the worker pools, the queue on a condition
variable, the WebSocket hub, the compare-and-swap maximum, transactional order creation and
refresh-token rotation. `dafny verify dfyconfig.toml` checks all of it.

## How it is built

Code that updates objects step by step is written as classes and methods with the loops of the
source. Each method is specified by a function of the old state, and theorems are proved about
those functions. Code that runs concurrently is a state machine: an `Event` datatype, a total
`Step` function (an event that is not possible in a state changes nothing) and `Exec`, which folds
`Step` over a sequence of events. Because `Step` is total, a theorem about `Exec` for every sequence
of events is a theorem about every interleaving, every failure and every point of crashing.
What is outside the code (clocks, random draws, the network, what other threads do, what the database
does with a statement) is a parameter or an event and is never constrained more than stated.

| module | component |
|---|---|
| `Migrations`, `MigrationRunner` | the migration runner as a crash-recovery protocol; its code, in three copies, as a run of it |
| `Window`, `RateLimiter`, `LimiterService`, `LimiterRuns` | window arithmetic; the limiter as a protocol; the limiter's code; the code as a run of the protocol |
| `Breakers`, `BreakerPairs` | both circuit breakers; their bisimulation and the load they let through |
| `Retry`, `Resilience` | both retry loops' backoff, `RetryPolicy.Do`, and the breaker around it |
| `Credit`, `Orders`, `OrderCalls` | the ledger; orders as a protocol; one call's code as a run of the protocol |
| `OrderKeys`, `OrderRuns`, `OrderCharges`, `OrderRepeats` | idempotency; runs that break a promise; what is charged for a key; whether a key can get another order |
| `WorkerPool`, `CondQueue`, `Hub`, `Peak` | the concurrent components |
| `Shop`, `RefreshTokens` | transactional order creation; token rotation |
| `Common` | options, 64-bit wrap-around, sums over sequences |

## What turned out not to hold as documented

In each case the code is modelled as it is, with a run or a value that shows the failure and the
exact condition under which the code does what it is meant to.

- Windows: the limiter documents that Go and SQL compute the same window. They agree on all instants
  from the epoch on if and only if the window is a whole number of seconds
  (`Window.FormulasAgreeIffWholeSeconds`), while the configuration only demands at least one second.
  The running code uses the SQL formula, and so do the theorems about the limiter, for every window
  the configuration accepts.
- Breakers: the limiter's breaker counts "consecutive failures while closed", but a failure that
  arrives while open is counted too and can open it again, which the platform's never does.
  They agree on a run if and only if that branch is never taken (`BreakerPairs.AgreeIffNoRetrip`);
  fresh breakers of every configuration have a run that does
  (`BreakerPairs.FreshBreakersPartWays`), after which one refuses what the other admits
  (`BreakerPairs.LateFailuresExtendTheCooldown`).
- Probes: "one probe at a time" fails, for every configuration (`Breakers.TwoProbesAtOnce`). From a
  half-open state with its probe in flight a second one can be let in if and only if a call runs that
  the episode did not admit (`Breakers.SecondProbeIffStray`), and there are never more than one
  plus the releases of such calls (`Breakers.ProbesAreBounded`).
- Backoff: "base * 2^(attempt-1), capped" is a shift in 64 bits, exact under the condition of
  `Retry.BackoffIsExactIff`. A policy can make its caller panic if and only if one of its draws has no
  room (`Retry.PanicsIffSomeDrawIsEmpty`); a policy of 40 attempts with the usual base does
  (`Retry.ManyAttemptsPanic`), the one the services use does not (`Retry.DefaultFits`), and the
  limiter's copy never does (`Retry.LimiterBackoffBounded`).
- Breaker verdicts: "only count failures that indicate the dependency is sick" misses one. When the
  caller's deadline passes while the retry loop waits, the error it returns carries no status, and the
  breaker hears a success: a probe of a dependency that is still down closes the circuit
  (`Resilience.DeadlineDuringProbeCloses`). A failed last attempt is counted if and only if its error is
  a deadline or internal status, or it is retryable and was the last of the policy's attempts, or
  the error that cut its wait short counts itself (`Resilience.Call`, `Resilience.ContextVerdicts`).
- Credit limit: neither service checks that a total fits 64 bits, so positive quantities and prices can
  come to a negative total, and two such orders take a user above the limit
  (`OrderRuns.WrappedTotalsOverspend`). On a run everybody stays within the limit throughout if and only
  if no charge takes a sum below what 64 bits can hold (`OrderRuns.WithinLimitsIffGuarded`), in particular
  when totals are not negative (`Orders.NobodyOverspends`). Conservation holds for all totals, modulo
  2^64 (`Orders.CreditIsConserved`).
- One order per key: looking a key up and recording it are two critical sections, and two calls can get
  past the lookup (`OrderRuns.TwoOrdersForOneKey`). Once the key is recorded, another order for it can yet
  be stored if and only if a call with the key is past the lookup, at work and not bound to be
  refused (`OrderRepeats.AnotherOrderIffSomeCallAble`). How many there are is
  `OrderKeys.OneOrderPerReplier`.
- One charge per key: a key is charged once for each confirmed order, and once for each approval that no
  caller turns into an order (`OrderCharges.ChargesAreAccountedFor`). One call is enough for two
  charges and one order: its first attempt is approved but not answered, and the retry is approved again
  (`OrderCharges.RetryChargesTwice`). The user service also executes a request whose caller has timed
  out, so the second charge can come after the order is stored (`OrderRuns.SecondChargeHappens`). With
  calls that do not overlap and a confirmed order, the key has been charged just once if and only
  if every approval was heard (`OrderCharges.ChargedOnceIffNothingLost`), and it has been or can yet be
  charged twice if and only if one was not, or a request for an active user is still on its way
  (`OrderCharges.ChargedTwiceIffLostOrAdrift`). A call never charges more often than it has made attempts
  (`OrderCharges.CallsChargeAtMostTheirAttempts`).
- Replays: a replayed rejection comes without the error code the first call got
  (`OrderRuns.ReplayedRejection`); the codes agree if and only if the order was not rejected
  (`OrderKeys.ReplayKeepsCodeIffNotRejected`).
- Queue: from wherever a run has got to, its work can be brought to the end if and only if the pushes
  exceed the pops by at least nothing and by no more than fits (`CondQueue.CompletesIffSurplusFits`).

The third migration runner does not look at the row error after reading the recorded versions. That is
harmless: everything is proved for any subset of the recorded versions (`MigrationRunner.Database.Migrate` with
`checked` false).

## Model

| member | source | states |
|---|---|---|
| `Migrations.VersionsAreDistinct` | 37_migrations_and_repository/migrate.go:56-65 | two globbed files have the same version if and only if they are the same file, so files never compete for one bookkeeping row |
| `Migrations.MissingAfterPrefix` | 37_migrations_and_repository/migrate.go:62-69 | after a recorded prefix exactly the rest of the sorted list is missing, in order |
| `Migrations.NextInOrder` | 37_migrations_and_repository/migrate.go:64-88 | a runner whose cursor is at a file not yet recorded can only be about to commit the very next missing file, whatever other runners committed meanwhile |
| `Migrations.CommitKeepsGood` | 37_migrations_and_repository/migrate.go:92-107 | body and bookkeeping row together extend the committed segment and the replayed schema by one file |
| `Migrations.StepKeepsInv` | 37_migrations_and_repository/migrate.go:38-125 | every step of every runner, crash, failure or lost acknowledgement keeps the protocol invariant and never removes a recorded version |
| `Migrations.CommitsInOrderOnce` | 37_migrations_and_repository/migrate.go:38-107 | on every interleaving of any number of runs the missing files commit in file order without gaps, none twice, and the schema is their replay |
| `Migrations.PrefixForEver` | 37_migrations_and_repository/migrate.go:60-89 | the record is a prefix of the sorted list after any run if and only if it was one before, and the schema is always the fold of the record |
| `Migrations.ReturnedRuns` | 37_migrations_and_repository/migrate.go:36-90 | a run returning nil leaves all its files committed and its `applied` is its own number of commits; with an error it has at most one commit more than it reports |
| `Migrations.Recovers` | 37_migrations_and_repository/migrate.go:76-86 | after any past, one undisturbed run reading the whole record ends with nil and everything committed, when the bodies succeed in their turn |
| `Migrations.NextCommitSucceeds` | 37_migrations_and_repository/migrate.go:92-107 | the next transaction of such a run is not refused |
| `MigrationRunner.OthersKeepGood` | 37_migrations_and_repository/migrate.go:64-88 | other runs between two database calls keep the record good and only extend it |
| `MigrationRunner.OthersAreSteps` | 37_migrations_and_repository/migrate.go:64-88 | what other runs commit meanwhile is steps of the protocol by those runs, and none of it counts as this run's own |
| `MigrationRunner.TurnInCourse` | 37_migrations_and_repository/migrate.go:64-107 | a turn of the loop is steps of the protocol by this run, and adds to its own commits exactly what its transaction committed |
| `MigrationRunner.TurnMeans` | 37_migrations_and_repository/migrate.go:64-107 | a turn keeps the record in order, commits at most its own file and only if nobody had, and succeeds when nothing is in its way |
| `MigrationRunner.ProgressTurn` | 37_migrations_and_repository/migrate.go:64-89 | a turn keeps what is announced equal to what was committed, or ends the loop short of one lost acknowledgement |
| `MigrationRunner.Database.AppliedVersions` | 37_migrations_and_repository/migrate.go:109-125 | the result is the recorded set, or an error if the rows broke off and the error is looked at, or a subset if it is not |
| `MigrationRunner.Database.ApplyOne` | 47_capstone/internal/store/store.go:173-188 | true exactly when body and row committed and the answer arrived; a refused or failed transaction leaves the database alone |
| `MigrationRunner.Database.Visit` | 47_capstone/internal/store/store.go:156-169 | one turn of the loop, with others committing before it: skipped exactly if it was read; applied only if nobody had recorded it by then; a file others recorded since makes the turn fail and leaves the record alone |
| `MigrationRunner.Database.Turn` | 37_migrations_and_repository/migrate.go:64-88 | the same as steps of the protocol |
| `MigrationRunner.Database.ApplyMissing` | 37_migrations_and_repository/migrate.go:64-89 | whatever others commit and whatever fails, the loop is a course of the protocol, and what it announces and counts is exactly what this run committed, short of one lost acknowledgement; undisturbed it succeeds |
| `MigrationRunner.Database.Migrate` | go-crud/internal/database/postgres.go:52-170 | the whole runner, whether or not a reading that broke off is noticed, is a run of the protocol that returns the same; `applied` counts its own commits, all new; success means every file is committed |
| `Window.FormulasAgreeAt` | system-design/fixed-window-counter/internal/limiter/limiter.go:12-16 | for whole-second windows the Go and SQL starts agree at an instant if and only if it is not before the epoch or lies in a boundary second |
| `Window.FormulasAgreeIffWholeSeconds` | system-design/fixed-window-counter/internal/limiter/limiter.go:7-16 | they agree on all instants from the epoch on if and only if the window is a whole number of seconds |
| `Window.WindowsPartition` | system-design/fixed-window-counter/internal/store/store.go:34-39 | windows of any length partition time, an instant lying in exactly the one the store computes; for whole seconds the Go formula names the same one |
| `Window.LaterWindow` | system-design/fixed-window-counter/internal/store/store.go:34-39 | the start never goes back in time and changes exactly at the boundary |
| `Window.RetryAfterIsLeast` | system-design/fixed-window-counter/internal/limiter/limiter.go:33-55 | a denied request is told at least 1, the least number of whole seconds after which it falls in a later window |
| `Window.RemainingIsExact` | system-design/fixed-window-counter/internal/limiter/limiter.go:33-45 | the reported remainder is exactly how many further requests of the window are allowed |
| `Window.ResetStartsTheNextWindow` | system-design/fixed-window-counter/internal/limiter/limiter.go:33-45 | the reset told is the first instant of the next window, the remainder is never negative, allowed means within the limit, and a denied request is told the time left |
| `RateLimiter.CommitsKeepsLogInv` | system-design/fixed-window-counter/internal/store/store.go:28-50 | each upsert gets the next number of its window by the SQL formula, and counters equal the log |
| `RateLimiter.PassingBounds` | system-design/fixed-window-counter/internal/service/service.go:117-143 | of the first `limit` numbers of a window all pass except at most the lost ones |
| `RateLimiter.StepKeepsInv` | system-design/fixed-window-counter/internal/service/service.go:79-143 | the limiter's invariant: each call decides from its own answered increment, stays within its attempts and is known to the breaker exactly while it runs; also when a statement given up commits later |
| `RateLimiter.WindowLimit` | system-design/fixed-window-counter/internal/service/service.go:79-143 | on every run, with any window the configuration accepts, at most `limit` counted requests pass in one window |
| `RateLimiter.SpanLimit` | system-design/fixed-window-counter/internal/service/service.go:79-143 | and at most twice that in any half-open span of a window's length |
| `RateLimiter.OverCounting` | system-design/fixed-window-counter/internal/service/service.go:117-143 | with n answered and k lost increments at least min(n, limit) - k pass; with k = 0 exactly min(n, limit); and an answered request passes if and only if its own number is within the limit |
| `RateLimiter.FailClosedCountsEverything` | system-design/fixed-window-counter/internal/service/service.go:105-115 | failing closed nothing passes uncounted, so the bounds cover all admissions |
| `RateLimiter.OneSignalPerAdmittedCall` | system-design/fixed-window-counter/internal/service/breaker.go:39-41 | an admitted call makes 1 to maxAttempts attempts and by its end has signalled the breaker exactly once; a refused one does neither |
| `RateLimiter.QuietLimiterRecovers` | system-design/fixed-window-counter/internal/service/breaker.go:86-92 | with no call in progress the breaker refuses if and only if it is open and its cooldown has not elapsed |
| `LimiterService.Store.Increment` | system-design/fixed-window-counter/internal/store/store.go:28-50 | only the row of the window by the SQL formula changes, by one, and the new count is returned |
| `LimiterService.OnlyOwnCounters` | system-design/fixed-window-counter/internal/service/service.go:117-143 | a call leaves other scopes alone and adds to a row at most its committed attempts |
| `LimiterService.Service.Increment` | system-design/fixed-window-counter/internal/service/service.go:122-153 | 1 to MaxAttempts tries, each but the last worth retrying, each commit counted, how the last one ended; one drawn wait after every try followed by another or cut short, of at most a second each and together within the capped doublings while these fit |
| `LimiterService.Service.Check` | system-design/fixed-window-counter/internal/service/service.go:79-103 | refused: nothing is touched; cancelled exactly if not answered and the caller's context ended, also during a wait, and then the breaker is released; otherwise the breaker hears the one verdict that fits the last try, and the decision is about the request's own number |
| `LimiterService.Service.Degraded` | system-design/fixed-window-counter/internal/service/service.go:105-115 | an uncounted admission happens if and only if the policy is fail-open |
| `LimiterRuns.CheckIsRun` | system-design/fixed-window-counter/internal/service/service.go:79-143 | one Check is a run of the protocol: it ends with the same breaker, the same counters and the outcome that is returned |
| `LimiterRuns.AttemptCounts` | system-design/fixed-window-counter/internal/service/service.go:122-134 | one try of the code is one attempt of the protocol, with the same number and the same way on |
| `LimiterRuns.AdmittedIsRun` | system-design/fixed-window-counter/internal/service/service.go:84-102 | an admitted call's tries, waits and verdict are steps of the protocol, and the breaker hears success, failure or release by how the last try ended |
| `Breakers.PlatformBreaker.Allow` | 63_microservices/internal/platform/resilience.go:210-233 | verdict and new state are those of the state machine's admission |
| `Breakers.PlatformBreaker.ReleaseCall` | 63_microservices/internal/platform/resilience.go:235-239 | new state after a release: only the probe flag is cleared (see `BreakerPairs.ClosedIffFewFailuresInARow` for the count) |
| `Breakers.PlatformBreaker.OnSuccess` | 63_microservices/internal/platform/resilience.go:241-249 | new state after a success |
| `Breakers.PlatformBreaker.OnFailure` | 63_microservices/internal/platform/resilience.go:251-267 | new state after a failure, late ones included |
| `Breakers.LimiterBreaker.Allow` | system-design/fixed-window-counter/internal/service/breaker.go:41-62 | verdict and new state are those of the same admission |
| `Breakers.LimiterBreaker.Success` | system-design/fixed-window-counter/internal/service/breaker.go:64-70 | new state after a success |
| `Breakers.LimiterBreaker.Failure` | system-design/fixed-window-counter/internal/service/breaker.go:72-84 | new state after a failure, which may trip again while open |
| `Breakers.LimiterBreaker.Release` | system-design/fixed-window-counter/internal/service/breaker.go:88-92 | new state after a release: only the probe flag is cleared |
| `Breakers.ArriveKeepsInv` | 63_microservices/internal/platform/resilience.go:210-233 | admitting a call keeps the invariant on counts, probe flag and outstanding probes |
| `Breakers.EndKeepsInv` | 63_microservices/internal/platform/resilience.go:235-267 | so does any call's end, however stale |
| `Breakers.FailureCount` | 63_microservices/internal/platform/resilience.go:251-267 | on every run of the platform's breaker failures < threshold if and only if closed; of the limiter's, always |
| `Breakers.ProbesAreBounded` | system-design/fixed-window-counter/internal/service/breaker.go:53-58 | the probe flag belongs to a probe that still runs; a half-open episode has at most 1 + stray releases probes at a time |
| `Breakers.StrayReleaseAdmitsSecondProbe` | system-design/fixed-window-counter/internal/service/breaker.go:86-92 | in a half-open state with a probe outstanding, the release of any call the episode did not admit lets a second probe in |
| `Breakers.SecondProbeIffStray` | system-design/fixed-window-counter/internal/service/breaker.go:53-58 | from a half-open state with its one probe in flight, some continuation within the episode has two probes out if and only if a call runs that the episode did not admit |
| `Breakers.StepKeepsOneProbe` | system-design/fixed-window-counter/internal/service/breaker.go:41-92 | without such a call every step keeps the episode to one probe |
| `Breakers.TwoProbesAtOnce` | 63_microservices/internal/platform/resilience.go:187-267 | for every configuration, a run of a fresh breaker with two probes out at once |
| `Breakers.NeverWedged` | system-design/fixed-window-counter/internal/service/breaker.go:86-92 | once all admitted calls have ended, a caller is refused if and only if the breaker is open and cooling down |
| `BreakerPairs.ClosedIffFewFailuresInARow` | 63_microservices/internal/platform/resilience.go:241-267 | on every run of either breaker: closed if and only if fewer than threshold failures came since the last success, whatever asks and releases lie between, and while closed the count is their number |
| `BreakerPairs.RefusedIffCoolingOrProbing` | 63_microservices/internal/platform/resilience.go:210-233 | on every run of either breaker: a caller is refused if and only if that many failures came and the cooldown from the opening failure runs, or a probe is out; asking changes nothing but admits one probe |
| `BreakerPairs.OneStep` | system-design/fixed-window-counter/internal/service/breaker.go:72-98 | equal breakers give equal verdicts and stay equal after an operation if and only if it is not a re-trip |
| `BreakerPairs.AgreeIffNoRetrip` | 63_microservices/internal/platform/resilience.go:210-267 | the two breakers are bisimilar on a run if and only if the limiter's never re-trips on it |
| `BreakerPairs.FreshBreakersAgree` | 63_microservices/internal/platform/resilience.go:251-267 | fresh ones agree on every run with fewer than `threshold` failures arriving in any open spell |
| `BreakerPairs.LateFailuresExtendTheCooldown` | system-design/fixed-window-counter/internal/service/breaker.go:72-98 | for every configuration `threshold` late failures separate them: at the end of the cooldown one admits and the other refuses |
| `BreakerPairs.FreshBreakersPartWays` | system-design/fixed-window-counter/internal/service/breaker.go:72-84 | for every configuration a run of admitted calls, half of which end late, on which the two fresh breakers stop agreeing |
| `BreakerPairs.ProbeCostsCooldown` | system-design/fixed-window-counter/internal/service/breaker.go:45-52 | during an outage each admission while open uses up one more cooldown |
| `BreakerPairs.OutageLoad` | system-design/fixed-window-counter/internal/service/breaker.go:20-98 | sequential failing callers are admitted at most threshold + floor(D / cooldown) times in D, and make at most maxAttempts times as many tries |
| `Retry.BackoffIsExactIff` | 63_microservices/internal/platform/resilience.go:95-96 | the 64-bit shift gives the capped doubling if and only if it does not overflow or wraps to something not below the cap |
| `Retry.PanicsIffSomeDrawIsEmpty` | 63_microservices/internal/platform/resilience.go:83-109 | a policy can make a caller panic if and only if one of the draws it makes has no positive bound |
| `Retry.ManyAttemptsPanic` | 63_microservices/internal/platform/resilience.go:95-97 | with the usual base and 40 attempts or more it does, when the dependency stays down |
| `Retry.DefaultFits` | 63_microservices/internal/platform/resilience.go:51-53 | the policy the services use never panics, and its waits add up to at most 150ms |
| `Retry.FittingDraws` | 63_microservices/internal/platform/resilience.go:95-97 | while the last doubling fits, every draw has a positive bound, the capped doubling plus one |
| `Retry.LimiterBackoffBounded` | system-design/fixed-window-counter/internal/service/service.go:145-153 | the limiter's wait is never negative, never over a second, and within the capped doubling while that fits |
| `Retry.LimiterFullJitter` | system-design/fixed-window-counter/internal/service/service.go:145-153 | every wait from nothing to the capped backoff can be drawn |
| `Retry.PlatformFullJitter` | 63_microservices/internal/platform/resilience.go:95-97 | and so in the platform's copy |
| `Retry.ErrorClasses` | 63_microservices/internal/platform/resilience.go:55-73 | which codes are retryable, that wrapping keeps the code, and that a context error carries none |
| `Retry.RetryPolicy.Do` | 63_microservices/internal/platform/resilience.go:80-112 | 1 to MaxAttempts calls, each but the last failed retryably, nil if and only if the last succeeded, which error otherwise; the waits are one draw each, together within the capped doublings; a panic if and only if a draw it comes to has no room |
| `Resilience.CanceledHasNoCode` | 63_microservices/internal/platform/resilience.go:194-206 | a cancellation of the caller's context carries no status code, so the order of the two tests is harmless and it never counts as a failure |
| `Resilience.VerdictMeans` | 63_microservices/internal/platform/resilience.go:194-206 | released if and only if cancelled, a failure if and only if the code is one of five, a success otherwise |
| `Resilience.ContextVerdicts` | 63_microservices/internal/platform/resilience.go:194-206 | a context cancelled during a wait is a release; a deadline passed during a wait, and a status that says cancelled, are successes |
| `Resilience.DeadlineDuringProbeCloses` | 63_microservices/internal/platform/resilience.go:103-109 | a probe whose caller's deadline passes while it waits to retry closes the circuit |
| `Resilience.Call` | 63_microservices/internal/platform/resilience.go:187-208 | for every policy: a refused caller makes no call and changes nothing; an admitted one settles once with the verdict on the retry loop's result, or not at all if the loop panics; which failed last attempts are counted, exactly |
| `Credit.ValidateMeans` | 63_microservices/internal/userservice/service.go:85-116 | non-negative amounts are approved if and only if the user is active and they fit in the remaining credit; then exactly they are spent, by nobody else; an unknown user, an inactive one and a declined amount each get their own reply, with what remains |
| `Credit.ApprovalSpends` | 63_microservices/internal/userservice/service.go:103-115 | an approval changes one user's spending by the amount modulo 2^64 |
| `Credit.ApprovalWithinLimit` | 63_microservices/internal/userservice/service.go:103-115 | for all 64-bit amounts and sums: an approval keeps the user within the limit if and only if the new sum stays above the least 64-bit number or the remaining credit had already outgrown 64 bits |
| `Credit.Ledger.ValidateCredit` | 63_microservices/internal/userservice/service.go:85-116 | the ledger's reply and new state are those of the specification |
| `Credit.TotalIsExact` | 63_microservices/internal/orderservice/service.go:82-88 | there is a total if and only if all quantities are positive; it is the exact sum modulo 2^64 and equal to it when it fits |
| `Credit.NonNegativePrices` | 63_microservices/internal/orderservice/service.go:82-88 | non-negative prices whose sum fits give a non-negative exact total |
| `Credit.SumLines` | 63_microservices/internal/orderservice/service.go:82-88 | the loop computes that total and stops at a bad quantity |
| `Orders.DecimalInjective` | 63_microservices/internal/orderservice/service.go:174-178 | different numbers print differently |
| `Orders.OrderIdInjective` | 63_microservices/internal/orderservice/service.go:174-178 | different sequence numbers give different order ids |
| `Orders.DecimalReadsBack` | 63_microservices/internal/orderservice/service.go:174-178 | an order id is "o" and the sequence number in decimal, which reads back as that number |
| `Orders.OrderBook.PersistOrder` | 63_microservices/internal/orderservice/service.go:170-184 | the whole new book: next number, order stored under its id, key recorded if there is one |
| `Orders.OrderBook.Lookup` | 63_microservices/internal/orderservice/service.go:69-73 | a non-empty recorded key is found, and nothing else |
| `Orders.PersistKeepsBook` | 63_microservices/internal/orderservice/service.go:170-184 | storing never overwrites an order and keeps book and history in step |
| `Orders.StepKeepsInv` | 63_microservices/internal/orderservice/service.go:53-192 | every piece of every call, and every request executed after its caller gave up, keeps: book equals history, each order and charge has its one call, ledger balanced |
| `Orders.CreditIsConserved` | 63_microservices/internal/userservice/service.go:103-115 | on every interleaving, with lost answers, retries and requests executed late, spending equals confirmed orders + approvals about to be stored + approvals nobody stores, modulo 2^64, for any amounts |
| `Orders.NobodyOverspends` | 63_microservices/internal/userservice/service.go:103-115 | with non-negative totals the equation is exact and spending stays between 0 and the credit limit |
| `OrderKeys.BookIsConsistent` | 63_microservices/internal/orderservice/service.go:170-184 | as many orders as `seq`, ids distinct, each key leads to a stored order created for it |
| `OrderKeys.OrdersSayWhatWasAsked` | 63_microservices/internal/orderservice/service.go:174-184 | on every run order i is numbered i + 1 and says the user, the lines and the total of the call that stored it |
| `OrderKeys.OrdersNeverChange` | 63_microservices/internal/orderservice/service.go:170-184 | a stored order is there for ever, unchanged |
| `OrderKeys.OrdersAtMostPassed` | 63_microservices/internal/orderservice/service.go:69-80 | at most one stored order per call that did not find the key |
| `OrderKeys.OneOrderPerReplier` | 63_microservices/internal/orderservice/service.go:59-80 | on every run the orders of a key are exactly as many as the calls that did not find it and were replied an order |
| `OrderRepeats.AnotherOrderIffSomeCallAble` | 63_microservices/internal/orderservice/service.go:59-168 | after any run that recorded the key, another order for it can be stored if and only if a call with the key is past the lookup and still able to store: told from its phase, its total and whether its user is active |
| `OrderRepeats.StepKeepsNoneAble` | 63_microservices/internal/orderservice/service.go:53-192 | if no call is able, no step makes one able or stores an order for the key |
| `OrderKeys.ReplayKeepsCodeIffNotRejected` | 63_microservices/internal/orderservice/service.go:73-78 | on every run a replay gets the code of the storing call if and only if the order was not rejected |
| `OrderKeys.SerialReplayKeepsCodeIffNotRejected` | 63_microservices/internal/orderservice/service.go:186-192 | and for non-overlapping calls with one key the replayed order is the stored one |
| `OrderKeys.DuplicatesAreBounded` | 63_microservices/internal/orderservice/service.go:69-80 | the orders ever stored for a key number at most the calls past the lookup when it was first recorded |
| `OrderKeys.SerialRun` | 63_microservices/internal/orderservice/service.go:59-80 | along non-overlapping calls of a key its invariant holds and, once recorded, its order is fixed and every charge uses up a request that was on its way |
| `OrderKeys.SerialCallsShareOneOrder` | 63_microservices/internal/orderservice/service.go:59-80 | non-overlapping calls with one key store at most one order and all reply with it |
| `OrderKeys.NoSecondCharge` | 63_microservices/internal/orderservice/service.go:59-80 | after the order is stored such calls are charged at most once for each request of an active user on its way then, not at all if there was none; the key keeps leading to the order |
| `OrderKeys.ChargesIffLands` | 63_microservices/internal/userservice/service.go:85-116 | after the order is stored the steps that charge the key are exactly those that execute a request given up and find the credit for it |
| `OrderRuns.ChargedAgainIffAdrift` | 63_microservices/internal/userservice/service.go:85-116 | after the order is stored, later non-overlapping calls can see the key charged again, whatever the totals, if and only if a request of that key for an active user was on its way then |
| `OrderCharges.ChargedAgainFairlyIffFits` | 63_microservices/internal/userservice/service.go:103-115 | with totals that are not negative: if and only if a request on its way has an amount that the remaining credit still covers |
| `OrderCharges.ChargesAreAccountedFor` | 63_microservices/internal/orderservice/service.go:97-168 | on every run and for every key, also before an order is stored: charges = confirmed orders + approvals about to be stored + approvals nobody heard of |
| `OrderCharges.ChargedOnceIffNothingLost` | 63_microservices/internal/orderservice/service.go:97-168 | for non-overlapping calls with a confirmed order: charged just once if and only if every approval was heard |
| `OrderCharges.ChargedTwiceIffLostOrAdrift` | 63_microservices/internal/orderservice/service.go:97-168 | and charged twice, by now or later, if and only if one was not heard or a request for an active user is on its way |
| `OrderCharges.RetryChargesTwice` | 63_microservices/internal/orderservice/service.go:97-118 | a run of one call with one order and two charges |
| `OrderCharges.CallsChargeAtMostTheirAttempts` | 63_microservices/internal/platform/resilience.go:83-111 | on every run the charges of a call and its requests on their way are no more than the attempts it has made, at most three |
| `OrderRuns.SecondChargeHappens` | 63_microservices/internal/orderservice/service.go:98-118 | a run of two calls that do not overlap, one order and two charges for one key |
| `OrderRuns.TwoOrdersForOneKey` | 63_microservices/internal/orderservice/service.go:69-80 | a run with two orders for one key |
| `OrderRuns.ReplayedRejection` | 63_microservices/internal/orderservice/service.go:73-78 | a run in which a rejection is replayed as a success |
| `OrderRuns.WithinLimitsIffGuarded` | 63_microservices/internal/userservice/service.go:103-115 | for any totals, on any run everybody stays within the limit throughout if and only if no charge takes a sum below 64 bits |
| `OrderRuns.WrappedTotalsOverspend` | 63_microservices/internal/orderservice/service.go:82-88 | a run of two orders with positive quantities and prices whose totals wrap around, which takes any active user above the limit |
| `OrderCalls.OrderService.Admit` | 63_microservices/internal/orderservice/service.go:53-88 | validation, lookup and total come in that order: an order is replied if and only if the key is recorded; refused, with InvalidArgument, if and only if the user is missing, there are no lines, or the key is new and a quantity is bad |
| `OrderCalls.OrderService.Attempt` | 63_microservices/internal/orderservice/service.go:109-117 | one remote call is one step of the protocol on the real ledger: answered, executed with its answer lost, or given up while on its way; an answer is NotFound for an unknown user, FailedPrecondition for an inactive one, and no error else |
| `OrderCalls.OrderService.Wait` | 63_microservices/internal/platform/resilience.go:103-109 | the wait after an attempt is steps of the protocol, also when any of the requests given up earlier are executed during it, in any order |
| `OrderCalls.OrderService.CheckCredit` | 63_microservices/internal/orderservice/service.go:98-118 | 1 to 3 attempts follow what the network did, step by step of the protocol, and end failed, declined or holding an approved charge; requests given up may be executed in any wait or outlive the loop |
| `OrderCalls.OrderService.Guarded` | 63_microservices/internal/orderservice/service.go:97-119 | attempts are made if and only if the breaker admits the call, which then hears the one verdict that fits; refused, nothing is charged |
| `OrderCalls.OrderService.CreateOrder` | 63_microservices/internal/orderservice/service.go:53-168 | one call is a run of the protocol, following the network, that ends in its reply; the breaker hears the very outcome the reply answers; an unknown user is answered NotFound and an inactive one FailedPrecondition; a new order says what was asked and is stored, also under its key; a known key changes nothing and returns its order; a refusal stores nothing |
| `OrderCalls.OrderService.Conclude` | 63_microservices/internal/orderservice/service.go:121-192 | confirmed if and only if credit was approved, rejected if and only if declined, pending if and only if the user service was unreachable and the total is at most 10000; else refused with its own code for the six that are kept, Unavailable if unreachable, Internal for every other |
| `OrderCalls.OrderService.Decide` | 63_microservices/internal/orderservice/service.go:121-161 | the same for a failed check: which are borne, and the code of every other |
| `WorkerPool.StepCopies` | 48_worker_pool/main.go:59-142 | no step changes how often a job occurs over all the places a job can be |
| `WorkerPool.JobsAreConserved` | 48_worker_pool/main.go:59-142 | on every run every job is in exactly one place, and jobs are dropped only after cancellation |
| `WorkerPool.ChannelsWithinRoom` | 48_worker_pool/main.go:104-105 | neither channel ever holds more than it has room for |
| `WorkerPool.ClosedOnce` | 48_worker_pool/main.go:119-126 | `results` is closed at most once, never sent on afterwards, and closed when the collector returns |
| `WorkerPool.CompleteRun` | 31_demo_examples/demo3_worker_pool/main.go:159-199 | a run that ends uncancelled has collected exactly the submitted jobs |
| `WorkerPool.CollectsOneToN` | 48_worker_pool/main.go:59-73 | so for the produced ids exactly 1..N, each once |
| `WorkerPool.BufferNeverBlocks` | 31_demo_examples/demo3_worker_pool/main.go:138-161 | with room for every result no worker ever waits to send |
| `WorkerPool.StepsComeToAnEnd` | 48_worker_pool/main.go:59-142 | every step but a cancellation lowers a measure |
| `WorkerPool.SomeoneCanMove` | 48_worker_pool/main.go:59-142 | no deadlock: in every state of every run that is not final some goroutine can move |
| `WorkerPool.RunsToTheEnd` | 31_demo_examples/demo3_worker_pool/main.go:105-199 | from any state a run ends with every goroutine gone, cancelled or not |
| `WorkerPool.FirstFailure` | 31_demo_examples/demo3_worker_pool/main.go:182-190 | the error reported is the first received, or none if none failed |
| `CondQueue.Queue.Push` | 52_sync_cond/main.go:59-67 | one turn of Push: appended and everybody woken, or full and asleep |
| `CondQueue.Queue.Pop` | 52_sync_cond/main.go:69-79 | one turn of Pop: the oldest item removed and everybody woken, or empty and asleep |
| `CondQueue.TurnKeepsInv` | 52_sync_cond/main.go:59-79 | every turn keeps order, bound, surplus and the reason of every sleeper |
| `CondQueue.FifoWithinBounds` | 52_sync_cond/main.go:45-79 | on every schedule and for any capacity popped ++ items = pushed, and the length stays within a capacity that is not negative |
| `CondQueue.NoLostWakeup` | 52_sync_cond/main.go:62-77 | a sleeping pusher means full, a sleeping popper means empty |
| `CondQueue.SomeoneIsAwake` | 52_sync_cond/main.go:59-79 | with a surplus that fits, work left means a goroutine awake to do it |
| `CondQueue.TurnsComeToAnEnd` | 52_sync_cond/main.go:59-79 | every turn lowers a measure |
| `CondQueue.CompletesIffSurplusFits` | 52_sync_cond/main.go:59-79 | for any capacity, any state reached can be brought to the end if and only if pushes - pops is at least 0 and fits the capacity (with capacity 0: if there is nothing to do; a negative one is never full) |
| `Hub.StepKeepsInv` | server-dashboard/backend/internal/hub/hub.go:52-86 | every event keeps the invariant on clients, channels and blocks |
| `Hub.ClosesOnceAndKeepsOpenOnes` | server-dashboard/backend/internal/hub/hub.go:52-86 | each channel is closed at most once and never sent on afterwards; while the hub runs the clients are exactly the open channels, after shutdown all are closed |
| `Hub.ContiguousBlock` | server-dashboard/backend/internal/hub/hub.go:72-83 | what the loop put in a channel is the unbroken block of broadcasts from registration to removal |
| `Hub.BlockStartsAtRegistration` | server-dashboard/backend/internal/hub/hub.go:61-63 | the start of a client's block is fixed when it registers |
| `Hub.OnlyOwnEventsMatter` | server-dashboard/backend/internal/hub/hub.go:72-83 | during a broadcast a client's channel and membership depend only on its own sends, drains and fills |
| `Hub.OrderDoesNotMatter` | server-dashboard/backend/internal/hub/hub.go:72-83 | two courses of a broadcast in which each client for itself sees the same events end in the same state, however the map is iterated and the draining interleaved |
| `Hub.DroppedOnlyWhenFull` | server-dashboard/backend/internal/hub/hub.go:74-82 | a client is dropped if and only if its own buffer is full, and otherwise gets the message |
| `Hub.BroadcastReachesEveryone` | server-dashboard/backend/internal/hub/hub.go:72-83 | every registered client gets the next broadcast after what it had, or is closed with what it had; it is not dropped if its buffer has room and nobody else fills it |
| `Hub.MembershipChanges` | server-dashboard/backend/internal/hub/hub.go:55-70 | registering makes an open empty client, unregistering closes and removes one, once, shutdown closes all; nobody else is touched |
| `Hub.Loop.OnRegister` | server-dashboard/backend/internal/hub/hub.go:61-63 | the event's step |
| `Hub.Loop.OnUnregister` | server-dashboard/backend/internal/hub/hub.go:65-70 | the event's step; a client already gone is not closed again |
| `Hub.Loop.OnBroadcast` | server-dashboard/backend/internal/hub/hub.go:72-83 | for any iteration order and anything happening to the buffers between two sends, the loop is a run of the protocol's steps that ends with every client reached |
| `Hub.Loop.OnDone` | server-dashboard/backend/internal/hub/hub.go:55-59 | every client's channel is closed, once |
| `Peak.StepKeepsInv` | 64_resilience/main.go:161-181 | every atomic step keeps the invariant and never lowers the peak |
| `Peak.PeakOnlyRises` | 64_resilience/main.go:161-181 | on every interleaving peak only rises, and peak and inFlight stay within the greatest inFlight, that within the limit |
| `Peak.PeakIsExact` | 64_resilience/main.go:168-183 | when no goroutine is in its loop the peak is the greatest value inFlight ever had |
| `Peak.LoopsAreShort` | 64_resilience/main.go:169-174 | a goroutine loads the peak at most cur + 1 times |
| `Peak.AtomicMax.Raise` | 64_resilience/main.go:169-174 | whatever others write in between, the loop ends within cur + 1 loads with the value at least cur, never lowered, and written by somebody |
| `Shop.ReserveTakesNeed` | go-crud/internal/product/repository.go:93-109 | a reservation takes from each product exactly the sum asked of it, and leaves prices alone |
| `Shop.ReserveIff` | go-crud/internal/order/repository.go:49-63 | for any quantities it succeeds if and only if at every item the product exists and what was asked so far is in stock |
| `Shop.PositiveReserveIff` | go-crud/internal/order/service.go:29-33 | for validated quantities if and only if every product exists and each sum fits its stock |
| `Shop.Repository.CreateOrder` | go-crud/internal/order/repository.go:34-88 | all or nothing; line i is item i at the price its product had, and the total is the sum of quantity times price over the lines; when it is refused and for which first item; only a lost acknowledgement lets a failed call take effect |
| `Shop.Repository.PlaceOrder` | go-crud/internal/order/service.go:25-38 | with working database calls an order is created if and only if the request is valid and every sum fits; validation and the unknown user are told apart; the total is that of the lines |
| `Shop.LinesHoldNeed` | go-crud/internal/order/repository.go:61-62 | the stored lines hold exactly what was asked |
| `Shop.LinesSayItems` | go-crud/internal/order/repository.go:61-64 | the lines are the items in order at their prices, and the accumulated total is the sum over the lines |
| `Shop.CreateConserves` | go-crud/internal/order/repository.go:31-88 | one creation keeps stock + ordered of every product and keeps stock non-negative |
| `Shop.GoodsAreConserved` | go-crud/internal/order/repository.go:31-88 | so does any run of creations, for any quantities |
| `RefreshTokens.TokenService.UseRefreshToken` | 60_jwt_auth/main.go:174-190 | the presented token is spent whatever its age; accepted, its user is returned and the next token stored |
| `RefreshTokens.AcceptedIffLiveAndInTime` | 60_jwt_auth/main.go:174-190 | accepted if and only if live and not expired; spent in any case; the successor is accepted until exactly seven days later; no other token changes |
| `RefreshTokens.FreshTokenLastsTTL` | 60_jwt_auth/main.go:162-168 | a token from a login is accepted for its user until exactly seven days later |
| `RefreshTokens.StepKeepsInv` | 60_jwt_auth/main.go:162-196 | every operation keeps the lineage invariant |
| `RefreshTokens.AcceptedOnceForItsUser` | 60_jwt_auth/main.go:170-190 | on every run a token is accepted at most once, and for the user of the login it descends from |
| `RefreshTokens.OneLiveTokenPerLogin` | 60_jwt_auth/main.go:170-190 | every login has at most one live token, made out to its user |
| `RefreshTokens.EndsTheLogin` | 60_jwt_auth/main.go:182-196 | revoking the live token, or presenting it too late, ends the login |
| `RefreshTokens.LoggedOutForEver` | 60_jwt_auth/main.go:162-196 | an ended login stays ended: none of its tokens is ever accepted again |
| `RefreshTokens.EndedLoginsStayEnded` | 60_jwt_auth/main.go:170-196 | the two together, at any point of any run |
| `RefreshTokens.SecondUseFails` | 60_jwt_auth/main.go:170-174 | a token already used is answered as invalid |

## Left out

- HTTP handlers, middleware, JSON, logging, configuration loading, signals: plumbing over libraries. Of the configuration only its validated bounds are used, as preconditions.
- Orders.StepKeepsInv: an answered request is executed and answered in one step, and a request given up that is never executed simply has no later step. Whether the breaker admits a call is left to the environment there, which covers every breaker; `OrderCalls.OrderService.Guarded` uses the real one.
- OrderCalls.OrderService.Wait: executes requests given up by this call only; those of other calls are other calls' steps. The HTTP gateway's own checks (positive quantities and prices) are no precondition of the order service.
- OrderCalls.OrderService.CreateOrder: follows one call that no other call interrupts; interleaved calls are covered by the protocol theorems over all event sequences.
- OrderCalls.OrderService.CheckCredit: the waits between attempts have no length here; their lengths are in `Retry.RetryPolicy.Do`.
- WorkerPool.StepCopies: goroutines and channels are steps on values rather than methods, because a method cannot be interrupted between two channel operations.
- Peak.StepKeepsInv: atomics are steps on values for the same reason; the loop of one goroutine is also the method `Peak.AtomicMax.Raise`.
- CondQueue.Queue.Push: one turn from getting the lock to giving it up; the wait loop is the repetition of turns by the scheduler in `CondQueue.Exec`.
- Migrations.VersionsAreDistinct: names as `fs.Glob` gives them; the third copy takes the base name of a path, which is distinct per file of one directory.
- MigrationRunner.Database.ApplyMissing: other runs act before each transaction by committing the next missing files, as steps of the protocol; that interleaved runs can do nothing else to the record is `Migrations.CommitsInOrderOnce`.
- LimiterService.Service.Increment: a statement given up that commits later does so after the call here; `RateLimiter` lets it commit at any time. Waiting is instantaneous and which errors are temporary is a flag of the attempt; the driver's error codes are not modelled.
- LimiterService.Service.Degraded: the remaining and reset fields of a degraded decision are zero, as in the source, and carry no meaning.
- RateLimiter.WindowLimit: one key and one rule; `LimiterService.OnlyOwnCounters` shows that keys do not interact.
- Window.FormulasAgreeAt: SQL evaluates its formula in floating point; here it is exact.
- Shop.Repository.CreateOrder: prices are whole minor units instead of floating point, row locks make a transaction one atomic step, and identifiers and timestamps given by the database are left out.
- RefreshTokens.AcceptedOnceForItsUser: random tokens are taken to be fresh; an operation that drew a token issued before is not a step of a run.
- Hub.ContiguousBlock: speaks of what the loop put in a channel; the snapshot sent to a new client outside the loop only takes up room.
- Breakers.NeverWedged: a protected call that panics never ends, and such a run is not covered; `Resilience.Call` says when the retry loop panics.
- Breaker callbacks on a change of state, and the names used in error messages.
- Removing, updating and listing of orders, products and users; the access-token side of the token service.
- asynq, errgroup, semaphores, `rate.Limiter` and singleflight: their source is not part of this model.
