# Orihsus: a verified model of the gateway's concurrent core

Orihsus is a gateway that rotates upstream API keys. This project models its stateful core in Dafny and
proves what it promises over whole runs:

- **The key pool** (`PoolModel`, `PoolWorld`, `PoolRuns`, `PoolOrdering`, `PoolRequests`, `PoolModels`,
  `ReportEffects`, `GivingUp`, and `OneKeyRuns` for concrete runs). Each public operation of the pool runs under
  one lock, so it is one atomic step of a state machine with a clock. A *run* is any interleaving of clock ticks, new requests, selections, reports and key replacements, for any
  number of requests. The theorems are about every run from a freshly built pool.
- **The pool as an object** (`KeyPools`, `Attempts`). The same operations as imperative classes that update
  entries, cursor and counters in place, each proved equal to its value-level function. Wherever the lock is
  free, an arbitrary environment may change pool and clock, as long as it keeps the pool invariant, never
  turns the clock back and never takes an id back.
- **Durations** (`Durations`). Backoff, jitter, deadlines and Retry-After. A duration is a number of
  nanoseconds, an instant a nanosecond on a clock without end.
- **The SSE side-band parser, the pump and the load generator's decoder** (`Sse`, `SseDecoding`, `Pump`).
  The byte-at-a-time parser with its four-byte window, event cap and discard mode against a declarative
  segmentation of the whole stream; the line-based decoder against the same stream; prefetch and pump as
  loops over a script of what the upstream yields and when.
- **The failover loop** (`Failover`, `Verdicts`) of a proxied request, over an arbitrary sequence of upstream outcomes.
- **Hot apply** (`RuntimeStores`): the runtime state behind its readers-writer lock next to the pool behind
  its own, as lock-step tasks that interleave freely.
- **The audit writer** (`Audit`): bounded queue, background thread, sink swapped in mid-stream.
- **The mock upstream's capacity gate** (`CapacityGate`): leases, waiters, timers and abort signals.

`dafny verify dfyconfig.toml` checks everything.

## Where the code does less than one would expect

The model follows the code. The statements in italics are promised by comments or would be expected of the
code, and fail as stated. Each has a witness, and the exact condition under which the code keeps it is proved.

- *A success never clears what a newer selection did to the key* (src/pool.rs:546-554). The marker that
  detects stale successes is overwritten, not maximised. `PoolOrdering.StaleSuccessWitness` is a run in which
  success 1 clears the cooldown of selection 2, because a late network failure of selection 0 put the marker
  back. In a run, no success that the pool lets through is older than the newest change of the key if and only
  if no state-changing report carries an id below the marker it overwrites (`StateProtectedIffOrdered`).
  Cooldowns alone are safe if and only if no merely counted network
  failure comes from a selection older than the cooldown's owner (`ProtectedIffNoOvertaking`).
- *`next` gives up before its deadline only when its keys are gone* (src/pool.rs:746-776). The selection
  attempt and the query for the next recovery are two critical sections. A key that becomes usable between them
  is neither selected nor waited for. `GivingUp.GivesUpOnRecoveredKey` is a run in which the clock moves on in
  between; in `GivingUp.GivesUpOnClearedKey` the clock stands still and another request's success clears the
  key. The keys are gone if and only if a second attempt at the moment of the query would have found nothing
  (`Attempts.GivesUpOnRemovalIff`, and in the contract of `Next` itself). In a run, a key that is still there
  was revived in between by the clock, a success or a replacement (`GivingUp.GivesUpOnGoneOrRevived`).
- *Sleeping until the earliest recovery misses nothing* (src/pool.rs:766-774). `next` sleeps with the lock free
  and is not woken. `GivingUp.SleepsOnClearedKey` is a run in which a request sleeps on for lack of a key that a
  success has just cleared. Before the recovery it was told of, an untried key is usable only if it was revived
  between attempt and query, or let in by a success or a replacement during the sleep, never by the clock
  (`GivingUp.NoMissedWakeup`). A step makes a held key usable if and only if it frees it (`UsableIffFreed`), and
  where no liveness deadline holds the key back, a sleep misses it if and only if there is a step that lets it in
  (`SleepMissesIff`).
- *Waits of at most 90 days* (src/pool.rs:84-96). `next` subtracts a clock reading taken before the query. For
  every pair of readings after the deadline of some request there is a run that tells a wait of 90 days plus
  their distance (`GivingUp.TellsTheGap`), so 90 days bound the wait, and 7776000 seconds the Retry-After header,
  if and only if the readings are equal (`GivingUp.NinetyDaysIffOneReading`, `HeaderIffOneReading`). Measured from the query itself, the bound always holds
  (`PoolRuns.WaitBound`).
- *Jitter in (0, base/2]* (src/pool.rs:30-31). The offset is taken modulo base/2 + 1, so it may be 0. One
  nanosecond is never spread, and from some state of the generator one second is not either
  (`Durations.SometimesNoJitter`). A draw spreads the base if and only if it is no multiple of the modulus and
  there is room (`Durations.GrowsIff`), and some draw does if and only if the modulus exceeds one
  (`Durations.CanGrowIff`).
- *Both SSE decoders see the same events.* `SseDecoding.MixedEndingsDisagree` is a stream on which they do not.
  Apart from events over the cap, they have counted alike after every byte of a stream if and only if no byte
  of it is a slip: the LF of a lone CR LF line after data in a segment whose previous line ended in a bare LF
  (`SseDecoding.AgreeIffNeverSlips`). Streams with uniform line endings have none (`UniformNeverSlips`).
- *A hot reload with model sync on keeps the latest model list* (src/main.rs:240-258). The list is copied before
  the write section. `RuntimeStores.LostModels` is a run in which an update of the list that completes in between
  is undone. The list in force is kept if and only if it is the one that was copied; if not, an operation
  completed in between changed it (`RuntimeStores.ReloadKeepsModelsIff`).
- *Every call to the capacity gate is answered.* A call whose signal was aborted before it was queued can be
  dropped unanswered: `CapacityGate.StrandedCall`, and exactly when: `DroppedIffDeadOnArrival`. The `rejected`
  counter also counts timers of waiters that had been aborted (`LateTimerCounts`, `RejectedCountsTurnedAway`).

## Model

| member | source | states |
|---|---|---|
| `Durations.DeadlineAfter` | src/pool.rs:706-709 | a deadline is never in the past, never past the requested cooldown, never more than 90 days ahead |
| `Durations.ValidIff` | src/pool.rs:119-153 | a policy is valid if and only if backoff, threshold, cooldown and wait are positive, the ceiling is not below the start, and one or two attempts are allowed |
| `Durations.BackoffAt` | src/pool.rs:711-720 | the doubling loop with early exit and saturation computes min(initial * 2^min(step, 20), max) |
| `Durations.BackoffMonotone` | src/pool.rs:711-720 | the backoff grows with the step, stays under its ceiling and, under a valid policy, never falls below its initial value |
| `Durations.BackoffDoubles` | src/pool.rs:711-720 | the backoff starts at its initial value, doubles with each of twenty steps up to its ceiling, and stays from there on |
| `Durations.XorShift` | src/pool.rs:74-81 | the generator never reaches its absorbing state zero from a nonzero state |
| `Durations.JitterModulus` | src/pool.rs:50-62 | the modulus is never zero for any duration, even where the cast truncates and the increment saturates, and is base/2 + 1 wherever that fits 64 bits |
| `Durations.UniformJitter.Jitter` | src/pool.rs:48-65 | the jittered value lies between base and base + base/2, and the generator stays nonzero |
| `Durations.GrowsIff` | src/pool.rs:48-65 | a draw makes the duration grow if and only if it is no multiple of the modulus and the duration is not the largest |
| `Durations.CanGrowIff` | src/pool.rs:48-65 | some draw makes a duration grow if and only if the modulus exceeds one and the duration is not the largest |
| `Durations.EveryWordIsDrawn` | src/pool.rs:74-81 | the generator is onto: every word is the next draw of some state, a nonzero one for a nonzero word |
| `Durations.SometimesNoJitter` | src/pool.rs:30-31 | one nanosecond is never spread, and one second is not from some nonzero state |
| `Durations.RetryAfterSecs` | src/gateway.rs:1955-1957 | the least whole number of seconds, at least one, that covers the wait |
| `Durations.RetryAfterRange` | src/gateway.rs:1955-1957 | a wait within the ceiling gives between 1 and 7776000 seconds |
| `PoolModel.NextCursorNearest` | src/pool.rs:685-697 | the cursor scan ends on the usable key nearest after the cursor in ring order, or stays if every key is cooling |
| `PoolModel.Cool` | src/pool.rs:597-605 | a cooldown ends at the later of the two deadlines, and takes owner and marker exactly if it is not absorbed by a later one |
| `PoolModel.FirstEligible` | src/pool.rs:793-812 | finds the first candidate in order that is unused, in the live pool and cool neither globally nor for the model; none exactly if there is none |
| `PoolModel.JitteredBackoff` | src/pool.rs:631-663 | whatever is drawn, a backed-off report cools the key until between b and min(b + b/2, backoff_max) from now, both within 90 days, and counts a step, unless a later cooldown absorbs it |
| `PoolModel.EarliestOf` | src/pool.rs:846-869 | is the minimum, over the candidates still in the pool, of the future instants at which they recover |
| `PoolWorld.Projection` | src/pool.rs:297-326 | seen through one fingerprint, every operation of the whole pool acts as a step on that key's own state and touches no other key |
| `PoolWorld.ReportKeepsPool` | src/pool.rs:555-682 | every report keeps the pool invariant and the key list, and draws at most one id |
| `PoolWorld.SelectKeepsPool` | src/pool.rs:790-838 | selecting, with or without a claim, keeps the pool invariant and the key list |
| `PoolWorld.ReplaceKeepsPool` | src/pool.rs:297-326 | replacement keeps the pool invariant, and the pool then holds exactly the new keys in order, or its old ones if the new list is empty |
| `PoolWorld.StepKeepsWorld` | src/pool.rs:185-219 | every step keeps the invariant: cooldown deadline, reason and owner together, half-open implies a deadline and a marker, a tripped counter implies a deadline, all ids drawn, cursor in range, deadlines bounded, requests within budget and distinct; clock and id counter never go back |
| `PoolRuns.Reachable` | src/pool.rs:185-219 | the invariant holds in every state of every run |
| `PoolRuns.CursorMovesOnlyOnCooldown` | src/pool.rs:685-697 | the cursor moves only when a replacement clamps it or a report applies a cooldown, and then to the nearest usable key |
| `ReportEffects.CursorStep` | src/pool.rs:685-697 | in every step, an applied cooldown moves the cursor to the nearest usable key, a replacement clamps it, and nothing else touches it; when a cooldown applies is written out for each kind of report |
| `PoolRuns.DeadlineStep` | src/pool.rs:555-574 | a step moves a key's cooldown earlier if and only if there was one and the step is a success that is not stale or a removal of the key |
| `PoolRuns.CooldownMonotone` | src/pool.rs:578-682 | over any stretch of any run without such a success or removal, the cooldown never moves earlier |
| `PoolRuns.HalfOpenStep` | src/pool.rs:555-574 | a half-open key stays half-open if and only if the step is neither a current success nor its removal |
| `PoolRuns.ClaimHoldsKey` | src/pool.rs:822-836 | selecting a half-open key holds it for exactly min(breaker_cooldown, 90 days), and only a key whose deadline has passed is selected |
| `ReportEffects.SuccessStep` | src/pool.rs:555-574 | a current success leaves no deadline, reason, owner or marker, counter and step zero, not half-open, the same key and liveness; any other success changes nothing at all |
| `ReportEffects.NetworkFailureStep` | src/pool.rs:666-680 | a network failure raises the counter by one, or, exactly if that reaches the threshold and no deadline lies beyond now + min(breaker_cooldown, 90 days), sets that deadline, zeroes the counter and makes the key half-open |
| `ReportEffects.UsageLimitStep` | src/pool.rs:621-630 | a usage limit cools the key for the time it names, at most 90 days, unless the current cooldown ends later |
| `ReportEffects.ThrottledStep` | src/pool.rs:631-664 | a rate limit or refusal with a positive Retry-After is honoured beyond the backoff ceiling and counts no step; without one the jittered backoff applies, capped, and counts a step |
| `ReportEffects.ServerErrorStep` | src/pool.rs:665 | a server error changes nothing |
| `ReportEffects.LivenessFailedStep` | src/pool.rs:486-502 | a liveness failure sets the deadline of that model to now + min(backoff_initial, 90 days) and touches nothing else of the key |
| `ReportEffects.ProactiveStep` | src/pool.rs:578-607 | a proactive cooldown runs from the early clock reading, under a fresh id, unless the current one ends later |
| `ReportEffects.ClaimStep` | src/pool.rs:813-837 | a selection draws a fresh id and rewrites a half-open key's cooldown under it; any other key stays as it is |
| `ReportEffects.ReplaceStep` | src/pool.rs:297-326 | a key that is kept keeps every field, one that is new starts from nothing, one that is dropped is gone |
| `ReportEffects.OthersUntouched` | src/pool.rs:555-682 | a report or selection changes no key but its own |
| `ReportEffects.HalfOpensIff` | src/pool.rs:666-680 | a key becomes half-open if and only if a network failure trips its breaker |
| `ReportEffects.HalfOpenReached` | src/pool.rs:666-680 | for every valid policy, a run from a fresh pool in which as many network failures as the threshold make the key half-open |
| `PoolRuns.SingleProbe` | src/pool.rs:790-838 | two selections of a key that stays half-open between them are at least min(breaker_cooldown, 90 days) apart, under every interleaving of reports, replacements and dropped probes |
| `PoolRuns.DroppedProbeLapses` | src/pool.rs:778-789 | a probe nobody reports blocks the key until its deadline and not an instant longer, through hot reloads that keep the key |
| `PoolRuns.WaitBound` | src/pool.rs:846-869 | in every state that keeps the invariant, the next recovery is in the future, at most 90 days away, with a Retry-After of 1 to 7776000 seconds |
| `PoolRuns.LivenessMonotone` | src/pool.rs:486-502 | while a key stays in the pool, none of its per-model liveness deadlines ever moves earlier or vanishes |
| `PoolOrdering.MarkerStep` | src/pool.rs:202-208 | what any step does to the stale-report marker: forgets it, overwrites it with the id of the change, or keeps it |
| `PoolOrdering.OwnerStep` | src/pool.rs:610-682 | what any step does to the owner of the cooldown, which a merely counted network failure leaves alone |
| `PoolOrdering.MarkerIsNewestIffOrdered` | src/pool.rs:610-682 | the marker equals the newest id that changed the key throughout a run if and only if no change carries an id below the marker it overwrites |
| `PoolOrdering.StateProtectedIffOrdered` | src/pool.rs:555-574 | throughout a run, no success that is not stale is older than the newest change of the key, if and only if no change carries an id below the marker it overwrites |
| `PoolOrdering.OwnerBelowNewest` | src/pool.rs:610-682 | the owner of a cooldown is never newer than the newest id that changed the key |
| `PoolOrdering.StaleSuccessIsNoOp` | src/pool.rs:546-566 | in runs ordered so far, a success older than the newest change or than the owner of the cooldown changes nothing at all |
| `PoolOrdering.ProtectedIffOwnerUnderMarker` | src/pool.rs:564-566 | a cooldown is out of reach of every older success if and only if its owner is not above the marker |
| `PoolOrdering.ProtectionStep` | src/pool.rs:666-680 | a step ends that protection if and only if it is a merely counted network failure older than the owner |
| `PoolOrdering.ProtectedIffNoOvertaking` | src/pool.rs:666-680 | cooldowns of a key are protected throughout a run if and only if no such failure occurs in it |
| `PoolOrdering.StaleSuccessWitness` | src/pool.rs:546-574 | a run with ids 0, 1 and 2 in which success 1 clears the cooldown owned by selection 2 |
| `PoolRequests.CandidatesAreRotation` | src/pool.rs:464-484 | the candidates of a new request are the pool's keys rotated to start at the cursor |
| `PoolRequests.RequestPinned` | src/pool.rs:464-484 | candidates, deadline and budget of a request stay those of its creation through every later step, replacements included |
| `PoolRequests.PickOrigin` | src/pool.rs:790-838 | every selection on record comes from one step of that request, with a fresh id, and took its first eligible candidate at that instant |
| `PoolRequests.RequestSelections` | src/pool.rs:730-758 | under any interleaving a request selects at most max_attempts keys, pairwise distinct, all from the pool as it was when the request began |
| `PoolModels.SameSelection` | src/pool.rs:793-812 | pools that differ only in liveness deadlines of model m select alike for any other model |
| `PoolModels.SameWait` | src/pool.rs:846-869 | and they wait alike |
| `PoolModels.TwinStep` | src/pool.rs:486-502 | and they stay so through every step that does not use model m, with equal selections and cursors |
| `PoolModels.NonInterference` | src/pool.rs:486-502 | given two worlds that differ only in m's liveness deadlines and a run of one without requests for m, the run without m's liveness failures exists from the other and ends in a world that differs only in m's deadlines |
| `KeyPools.KeyPool.constructor` | src/pool.rs:259-292 | a new pool has every key fresh, the cursor at the first and ids from zero |
| `KeyPools.BuildPool` | src/pool.rs:259-292 | building is refused exactly for an invalid policy, then for an empty key list |
| `KeyPools.KeyPool.AdvanceCursor` | src/pool.rs:685-697 | the scanning loop lands on the nearest usable key |
| `KeyPools.KeyPool.ReplaceKeys` | src/pool.rs:297-326 | carries over the state of kept keys, starts new ones fresh, clamps the cursor; the empty list is refused and changes nothing |
| `KeyPools.KeyPool.ReportSuccess` | src/pool.rs:555-574 | resets the key unless the success is stale or the key is gone; everything else unchanged |
| `KeyPools.KeyPool.ReportLivenessFailure` | src/pool.rs:486-502 | sets only the deadline of that key for that model |
| `KeyPools.KeyPool.ReportProactiveCooldown` | src/pool.rs:578-607 | cools a live key from an instant read before the lock, under an id drawn inside it, and moves the cursor exactly if the cooldown applies |
| `KeyPools.KeyPool.ReportFailure` | src/pool.rs:610-682 | each kind of failure updates entry and cursor in place as the specification says |
| `KeyPools.KeyPool.ReportWithJitter` | src/pool.rs:637-649 | with the production generator: drawn from only when the key is there and the backoff decides, and the applied deadline lies within the jittered backoff |
| `KeyPools.KeyPool.CountFailure` | src/pool.rs:666-680 | a network failure is counted, and trips the breaker and the cursor exactly at the threshold |
| `Attempts.GivesUpIff` | src/pool.rs:752-770 | for any two pools and instants of attempt and query, giving up happens if and only if nothing is pending at the query and each untried candidate was not eligible at the attempt and is gone or eligible at the query |
| `Attempts.GivesUpOnRemovalIff` | src/pool.rs:752-770 | a request that gives up has lost all its untried keys if and only if an attempt at the moment of the query would find nothing |
| `GivingUp.OnlyRevivalHelps` | src/pool.rs:790-812 | a key that is not usable becomes so only by a step that moves the clock on, is a current success for it, or brings it into the pool |
| `GivingUp.GivesUpOnGoneOrRevived` | src/pool.rs:752-770 | in any run, a request that gives up has each untried key gone, or revived by a step between attempt and query |
| `GivingUp.GivesUpOnRecoveredKey` | src/pool.rs:766-770 | a run in which a request gives up before its deadline on a usable key, because the clock moved on in between |
| `GivingUp.GivesUpOnClearedKey` | src/pool.rs:752-770 | a run with the same end on a clock that stands still, because a success landed in between |
| `GivingUp.UsableIffFreed` | src/pool.rs:790-812 | a key that is gone or recovers no sooner than some instant is made usable by a step before that instant if and only if the step brings it in, or is a current success and no liveness deadline holds the key back |
| `GivingUp.NoMissedWakeup` | src/pool.rs:766-774 | in any run, an untried key that is usable while the request sleeps, before the recovery it was told of, was revived between attempt and query, or let in by a success or a replacement during the sleep |
| `GivingUp.SleepMissesIff` | src/pool.rs:766-774 | a key held at the query and not held back by a liveness deadline is usable at some point of the sleep if and only if some step of it is a current success for it or brings it in |
| `GivingUp.WakesOnTime` | src/pool.rs:846-869 | as long as nothing happens to the key that set the recovery, it is usable from exactly that instant on |
| `GivingUp.SleepsOnClearedKey` | src/pool.rs:766-774 | a run in which a request is told to sleep for an hour and the key is usable in the next state, with the clock standing still |
| `Attempts.WaitWithinGap` | src/pool.rs:759-765 | the wait told to the client is at most 90 days plus the gap between the readings |
| `GivingUp.TellsTheGap` | src/pool.rs:759-765 | for every pair of readings past the deadline of a request begun at the start, a run that tells 90 days plus their distance |
| `GivingUp.NinetyDaysIffOneReading` | src/pool.rs:759-765 | over all runs with these readings, the wait told is at most 90 days if and only if they are equal |
| `GivingUp.HeaderIffOneReading` | src/gateway.rs:1516 | over all runs with these readings, the Retry-After header is between 1 and 7776000 seconds if and only if they are equal |
| `Attempts.RequestAttempts.constructor` | src/pool.rs:464-484 | the loop that snapshots the ring gives the request of the specification, with one deadline for all its calls |
| `Attempts.RequestAttempts.TrySelectUnused` | src/pool.rs:790-838 | selects the specified key and claims a half-open one in the same step; selects none exactly if none is eligible |
| `Attempts.RequestAttempts.NextImmediate` | src/pool.rs:730-741 | selects now or is exhausted, and never waits |
| `Attempts.RequestAttempts.Next` | src/pool.rs:746-776 | terminates by deadline minus now; a selection is valid at its instant; exhausted exactly for a spent budget or no untried candidate; unavailable before the deadline only if nothing is pending, and then all untried keys are gone if and only if none is selectable at the query; every sleep before that follows a vain attempt and lasts exactly until the recovery found or the deadline; the told wait is to the next recovery and bounded |
| `Attempts.HasUnused` | src/pool.rs:840-844 | holds exactly if some candidate has not been tried |
| `Failover.LedgerGrows` | src/audit.rs:125-130 | within two attempts the capped ledger misses none, and each failed attempt names the key tried next |
| `Failover.TellPool` | src/gateway.rs:1317-1329 | exactly one report is made, about this selection, and it says what the attempt ran into |
| `Verdicts.OutcomeEffect` | src/gateway.rs:1317-1497 | what the attempt's key looks like after the report: unchanged pool for a 5xx, the breaker's count for a breakdown, this model's deadline for silence before the first event, and a cooldown under its own reason for a usage limit, a rate limit and a refusal |
| `Verdicts.ReasonsMatchReports` | src/gateway.rs:1317-1497 | the ledger's reason and the pool's report agree for every outcome of an attempt |
| `Verdicts.LatestConsumedIs` | src/gateway.rs:1383-1440 | the error response kept is that of the last attempt whose error was read in full |
| `Verdicts.NoneConsumed` | src/gateway.rs:1272 | and there is none if no error was read in full |
| `Failover.AcquireNext` | src/gateway.rs:1278-1289 | each answer says what the pool held at the last selection attempt: a key, or none and no time, budget or untried key left to wait with; once an error is held the loop does not wait |
| `Failover.Run` | src/gateway.rs:1272-1498 | terminates; ledger and selections agree; every attempt not forwarded nor abandoned in flight is reported exactly once; it goes on while the tracker has a key to give, and ends without a forwarded response only when budget or keys are spent or none is usable; after a consumed error it ends only in a forwarded response or the latest consumed error |
| `Failover.FeedBack` | src/gateway.rs:2039-2050 | the end of a forwarded stream is reported once, as success, network failure or liveness failure, and not at all if the client left or no slot was free |
| `Failover.Serve` | src/gateway.rs:1272-1498 | over the whole request each selection gets exactly one report in order, but for one in flight when the handler was dropped and a forwarded one that ended by client cancel or without a slot; the report on a forwarded one is that of the pump's real outcome, and success is reported exactly if the relay of the winning body goes well and the client stays |
| `Sse.SegmentsCutTheStream` | src/gateway.rs:2387-2414 | the segments and the rest concatenate to the stream, each segment ends in a delimiter and holds none earlier |
| `Sse.SegmentationUnique` | src/gateway.rs:2387-2414 | there is only one way to cut a stream like that |
| `Sse.WindowShowsDelimiter` | src/gateway.rs:2390-2398 | the last four bytes since the delimiter tell whether the segment ends here |
| `Sse.ByteCounts` | src/gateway.rs:2396-2411 | what one more byte does to the specified pending bytes, event count and usage |
| `Sse.SseUsageParser.Push` | src/gateway.rs:2387-2414 | for any chunk after any stream, returns how many events of the specification the chunk completes, and buffers at most the cap |
| `Sse.ParseChunks` | src/gateway.rs:2387-2438 | event count and usage depend on the concatenated stream only, whatever the chunks, and equal the specification |
| `SseDecoding.UnlinesLines` | tools/loadtest/loadgen/src/sse.rs:13-37 | lines and the unfinished line put together again give the stream |
| `SseDecoding.Decoder.Push` | tools/loadtest/loadgen/src/sse.rs:13-37 | fails exactly if some complete line is not UTF-8; otherwise emits exactly the events the new lines complete |
| `SseDecoding.DecodeChunks` | tools/loadtest/loadgen/src/sse.rs:13-37 | whatever the chunks, the events are those of the lines of the whole stream |
| `SseDecoding.DataValueUndone` | tools/loadtest/loadgen/src/sse.rs:31-33 | the value of a data line, on literal bytes, is what follows the colon without one leading space |
| `SseDecoding.WireRoundTrip` | tools/loadtest/loadgen/src/sse.rs:13-37 | a payload without line breaks, sent as data line and blank line in literal bytes, comes out of the decoder unchanged, and to the gateway is one event, counted exactly if it fits the cap |
| `SseDecoding.InStepIffNoSlip` | tools/loadtest/loadgen/src/sse.rs:13-37 | one more byte keeps decoder and segmentation in step if and only if it is not a slip, and at a slip their counts differ |
| `SseDecoding.AgreeIffNeverSlips` | tools/loadtest/loadgen/src/sse.rs:13-37 | for every stream, the decoder has counted the segments with data after every byte if and only if no byte is a slip |
| `SseDecoding.UniformNeverSlips` | tools/loadtest/loadgen/src/sse.rs:13-37 | a stream whose line endings are all LF or all CRLF has no slip |
| `SseDecoding.DecodersAgree` | src/gateway.rs:2387-2434 | on a stream without a slip the decoder's count is the gateway's count plus the events over the cap |
| `SseDecoding.CountBothWays` | tools/loadtest/loadgen/src/sse.rs:13-37 | the two programs, given differently chunked copies of such a stream, return counts that differ by exactly the events over the cap |
| `SseDecoding.MixedEndingsDisagree` | tools/loadtest/loadgen/src/sse.rs:19-29 | a stream with both line endings on which the decoder sees one event and the gateway none |
| `Pump.Prefetch` | src/gateway.rs:1652-1705 | success means the first complete event came with the last chunk, in time, within the cap and without discarding; each failure means exactly its cause at the next item |
| `Pump.PrefetchUnique` | src/gateway.rs:1652-1705 | body and deadline determine failure and chunks of a prefetch |
| `Pump.JsonUsageParser.Push` | src/gateway.rs:2337-2349 | keeps the body while it fits the cap and forgets it for good once it does not |
| `Pump.JsonUsageParser.Usage` | src/gateway.rs:2351-2356 | the usage of the whole body if it fits the cap, otherwise none |
| `Pump.RelayPrefetched` | src/gateway.rs:2192-2205 | relays the prefetched chunks in order up to the first the client does not take |
| `Pump.RelayLive` | src/gateway.rs:2206-2275 | relays live chunks in order, each read in time; the outcome is the one its cause calls for: a client that takes no more, a stall (an idle budget after the last completed event, or after the start of a read of a plain body), otherwise the end or the break of the body |
| `Pump.PumpUpstream` | src/gateway.rs:2171-2275 | metrics cover prefetched and live chunks together; what is sent is what was read, or all but the last chunk on client cancel; the outcome is determined by the plan: cancel at the first chunk not taken, else stall, end or break of the live body |
| `Pump.PumpEndsOneWay` | src/gateway.rs:2171-2275 | a plan determines what is read and how it ends |
| `Pump.CompletesIffHealthy` | src/gateway.rs:2171-2275 | the pump completes if and only if the body comes to its end, every item in time, and the client takes every chunk |
| `Pump.StallMeans` | src/gateway.rs:2206-2235 | with a client that takes chunks at once, a plain body stalls exactly if an item comes later than the budget after the one before, an event stream exactly if later than the budget after the last completed event |
| `Pump.ReadIsPrefix` | src/gateway.rs:2192-2275 | prefetched then live chunks are a prefix of what the upstream delivered, and all of it where the body ended |
| `Pump.ForwardCommitted` | src/gateway.rs:2006-2056 | a committed response's metrics are those of the chunks read, or none if the client vanishes while the pump waits, and its usage is recorded only if it completed |
| `Pump.ForwardBody` | src/gateway.rs:1629-1705 | prefetch and pump together: the client gets a prefix of the upstream's chunks, nothing if not committed, which is so exactly if the prefetch fails, and all of them if and only if the relay goes well; events and usage are those of the whole body |
| `RuntimeStores.LockKept` | src/gateway.rs:243-292 | under every step, exactly the tasks inside a critical section hold the lock, and a writer is alone |
| `RuntimeStores.StoreRunOk` | src/gateway.rs:243-292 | in every state of every run the invariant of lock, data, readers and snapshots holds |
| `RuntimeStores.SnapshotsNeverMix` | src/gateway.rs:243-252 | every pair handed to a request has the state and the rotated keys of one and the same generation |
| `RuntimeStores.AppliedChanges` | src/gateway.rs:255-292 | what each operation changes of a generation and what it leaves, field by field |
| `RuntimeStores.GenerationsFollowOperations` | src/gateway.rs:255-292 | in every run, the generations are what the completed operations make of the first one by one: a new state with the same keys, the same generation with another model list, new keys with a new state, or no change for a refused replacement |
| `RuntimeStores.OperationWasBegun` | src/gateway.rs:255-292 | an operation under way was begun by an earlier move of the same task, which has kept to it since |
| `RuntimeStores.CompletedOperation` | src/gateway.rs:255-292 | a task that gives the lock back leaves the current generation with exactly the change it was begun for, and that is then in force |
| `RuntimeStores.RefusedReplacement` | src/gateway.rs:279-292 | no step of a refused key replacement touches pool or state, and the generation after it equals the one before |
| `RuntimeStores.ReloadKeepsModelsIff` | src/main.rs:240-258 | a reload that copied the model list earlier leaves the copied list; it keeps the list in force if and only if the two are equal, and otherwise an operation completed in between changed it |
| `RuntimeStores.LostModels` | src/main.rs:240-258 | a run in which a completed update of the model list is undone by such a reload |
| `RuntimeStores.CarriedThrough` | src/gateway.rs:255-292 | from every state in which an operation has the lock or finds it free, there is a run that completes it and leaves every other task where it was |
| `RuntimeStores.PoolOperationsKeepKeys` | src/pool.rs:555-682 | reports and selections, which run outside the store's lock, never change the key list |
| `Audit.SinkAfterUnique` | src/audit.rs:556-568 | the sink in force is the one of the latest successful reopen, and that determines it |
| `Audit.HandleKeeps` | src/audit.rs:534-570 | handling one command keeps sink, log, first error and failure count as the history of commands and fates defines them |
| `Audit.WriteLoop` | src/audit.rs:527-583 | the log is the written records once each in order, each on the sink of its position; Ok if and only if no serialisation, write or final flush failed, otherwise the first failure, the flush counting last; write failures counted |
| `Audit.AuditWriter.TryRecord` | src/audit.rs:346-360 | a record is accepted if and only if the queue is open and holds fewer than its capacity; otherwise it is dropped and counted |
| `Audit.AuditWriter.EnqueueReopen` | src/audit.rs:379-391 | a reopen is queued behind everything accepted before it if and only if the queue is open and holds fewer than its capacity; otherwise refused without effect |
| `Audit.AuditWriter.Close` | src/audit.rs:433-436 | the queue takes nothing more and keeps what it has |
| `Audit.Start` | src/audit.rs:504-507 | refuses exactly the queue that holds nothing |
| `Audit.OffersConserved` | src/audit.rs:346-360 | in every run, offers are accepted records plus dropped ones, the queue is bounded, and what was accepted is what was processed followed by the queue |
| `Audit.TakenInIff` | src/audit.rs:346-391 | in every run, an offer or reopen is accepted if and only if the queue is open and fewer than its capacity are accepted and not yet handled; every other offer is counted as dropped |
| `Audit.StaysOpen` | src/audit.rs:433-436 | only closing closes the queue, and its capacity never changes |
| `Audit.LogFollowsAcceptance` | src/audit.rs:527-583 | in every run, records reach the log once each in acceptance order, on the sink of the latest successful reopen accepted before them |
| `Audit.FinishedRun` | src/audit.rs:571-583 | when the thread ends, every accepted command was handled, and the result is Ok exactly if nothing failed, otherwise the first failure, the flush counting last |
| `Audit.FinishedForGood` | src/audit.rs:346-351 | after that, nothing is accepted and nothing changes |
| `Audit.ReopenTakesEffect` | src/audit.rs:362-368 | a record offered after a reopen succeeded goes to the reopened file, unless a later reopen before the record succeeded too |
| `CapacityGate.StepKeeps` | tools/loadtest/mock-upstream/lib/capacity.js:6-54 | acquiring, releasing, a timer, an abort and a reset of the metrics each keep the invariant |
| `CapacityGate.LimitHolds` | tools/loadtest/mock-upstream/lib/capacity.js:6-54 | in every run, leases never exceed the limit, both gauges are exact, and no slot is idle while anyone waits |
| `CapacityGate.GrantsFollowArrival` | tools/loadtest/mock-upstream/lib/capacity.js:42-52 | in every run, slots are granted strictly in order of arrival |
| `CapacityGate.CallMeets` | tools/loadtest/mock-upstream/lib/capacity.js:6-18 | in every run, a call is granted at once if and only if a slot is free, refused if and only if none is and the queue is full, and queued otherwise; the limit counter rises exactly if no slot is free |
| `CapacityGate.NewcomerOvertakesNobody` | tools/loadtest/mock-upstream/lib/capacity.js:8-12 | a call granted at once finds the queue empty and every earlier call settled or dropped |
| `CapacityGate.SlotGoesToLongestWaiting` | tools/loadtest/mock-upstream/lib/capacity.js:42-52 | a returned slot goes to the live waiter that has waited longest, and to nobody if and only if every waiter is dead |
| `CapacityGate.LeaseFreesOneSlot` | tools/loadtest/mock-upstream/lib/capacity.js:36-41 | a lease given back is never out again, and giving it back again at any later time changes nothing |
| `CapacityGate.OnlyAbortedArrivalsAreStranded` | tools/loadtest/mock-upstream/lib/capacity.js:42-47 | each call is settled, waiting or dropped, one of these only; dropped only if its signal was aborted on arrival |
| `CapacityGate.DroppedIffDeadOnArrival` | tools/loadtest/mock-upstream/lib/capacity.js:42-47 | a release drops a waiter unanswered if and only if it and all ahead of it came with an aborted signal |
| `CapacityGate.TimerTurnsAway` | tools/loadtest/mock-upstream/lib/capacity.js:22-30 | a timer turns its waiter away, if it still waits, and nobody else; the others keep their order |
| `CapacityGate.AbortSettles` | tools/loadtest/mock-upstream/lib/capacity.js:22-32 | an abort settles exactly the queued waiters with that signal; the others keep their order, and no timer is cleared |
| `CapacityGate.StrandedForGood` | tools/loadtest/mock-upstream/lib/capacity.js:42-47 | a dropped call is never answered later |
| `CapacityGate.StrandedCall` | tools/loadtest/mock-upstream/lib/capacity.js:42-47 | a run with a dropped call |
| `CapacityGate.RejectedCountsTurnedAway` | tools/loadtest/mock-upstream/lib/capacity.js:14-31 | between two resets the rejection counter grows by at least the calls turned away, and by exactly those if and only if no timer of an aborted waiter has fired |
| `CapacityGate.LateTimerCounts` | tools/loadtest/mock-upstream/lib/capacity.js:27-31 | a run in which it counts a call that was not turned away |
| `CapacityGate.Capacity.Acquire` | tools/loadtest/mock-upstream/lib/capacity.js:6-34 | grants only to an empty queue, queues in order, or refuses, each with its counters |
| `CapacityGate.Capacity.Release` | tools/loadtest/mock-upstream/lib/capacity.js:36-54 | the loop drops the dead at the head and hands the slot to the first live waiter; a second call does nothing |
| `CapacityGate.Capacity.TimerFires` | tools/loadtest/mock-upstream/lib/capacity.js:22-30 | the waiter, if still queued, leaves and is turned away; the counter rises in any case |
| `CapacityGate.Capacity.AbortFires` | tools/loadtest/mock-upstream/lib/capacity.js:22-32 | all queued waiters of the signal leave, the others keep their order |
| `CapacityGate.Capacity.ResetMetrics` | tools/loadtest/mock-upstream/lib/metrics.js:39-47 | the counters go to zero, gauges and queue stay |

## Left out

- HTTP, TLS, sockets, header filtering, authentication and the accept loop: an upstream call is an arbitrary outcome.
- JSON, UTF-8 and SHA-256: usage extraction, error classification, UTF-8 validity and fingerprints are arbitrary functions or values.
- `has_available_key` and `status_snapshot`: read-only views that add only easy members.
- Integer widths: ids, failure counters, backoff steps and metrics are unbounded naturals, so wrap-around and saturation are not modelled, except in the jitter and backoff arithmetic.
- Panics, poisoned locks and a writer thread that dies: no step for them. `AuditError::WriterPanicked` appears only as the answer of a closed writer.
- Latencies and activity offsets in attempt summaries and pump metrics: only bytes, chunks and events are modelled.
- An absent idle timeout in the pump: its only caller always gives one.
- Bytes that a failed audit write may have left in the file, the timed wait for a reopen's reply, and the bounded shutdown: the queue protocol does not depend on them.
- Which waiters a capacity gate serves when its limits are changed while it runs, and its queue-time observations.
- `Decoder::finish` of the load generator: a push of two line feeds.
- Request queue, body budget and the number of stream slots: thin wrappers over semaphores.
- Configuration checks, command line, file watching, model list and usage fetching, load generator statistics: flat checks or input and output.
- Durations.RetryAfterSecs: exact ceiling over whole nanoseconds, because the rounding of the floating-point form is not modelled.
- CapacityGate.Capacity.Release: the `released` flag of a lease is membership in the set of leases held, because a closure over a mutable variable has no counterpart.
