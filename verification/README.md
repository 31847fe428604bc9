# A verified model of go-nuts' retry, dead-letter and shutdown protocols

go-nuts is a Go library around NATS JetStream. Its consumers leave a failed delivery for the
broker to redeliver, capture it to a dead-letter queue (DLQ) once the ladder is spent, and may
arm a circuit breaker on a stalled ack floor. Its shutdown code promises that nothing is
drained, cancelled or forgotten too early. This project states those promises in Dafny and
proves them over whole runs.

| file | models |
|---|---|
| `Basics.dfy` | optional values, Go's wrapping 64-bit integers |
| `Schedule.dfy` | `backoff.Policy.DelayFor` and `jsconsumer.Schedule`: the ladder and its validator |
| `Floor.dfy` | `jsconsumer.FloorMonitor`: the stall clock, its warning, its poll counters |
| `RetryCore.dfy` | what `jsconsumer.Retry` decides, as functions and relations over values |
| `Retry.dfy` | `jsconsumer.Retry` as the object it is, each method proved against `RetryCore` |
| `BreakerRuns.dfy` | histories of the breaker, interleaved at lock boundaries |
| `ObserveRuns.dfy` | the same calls under `BreakerObserve` and `BreakerEnforce` |
| `BrokerRuns.dfy` | one message's life against the broker |
| `ConsumerConfig.dfy` | `Config.validate`, `checkAgainstStream` and the broker's redelivery clock |
| `Decimal.dfy` | `strconv.Itoa`, `FormatUint`, `Atoi` |
| `DeadLetter.dfy` | `natsmsg.DeadLetter`: header filtering and provenance over chains of captures |
| `Copies.dfy` | `Retry` and `natsmsg.DeadLetter` together: what is in the DLQ after one message's life |
| `ShutdownGroup.dfy` | `nuts.ShutdownGroup`: its locked core as an object, its protocol as a step system |
| `Runner.dfy` | `Runner.Stop` and `Run` as step systems |
| `Heartbeat.dfy` | `natsmsg.KeepInProgress`: the tick loop, the lease, the stop |

Times are integers (nanoseconds where a unit matters). Clock readings, broker answers, context
cancellation (as `backoff.IsInterrupted` answers it) and message metadata are inputs, quantified over. A broker answer of "failed" to a
publish or an ack says nothing about what the broker did (`BrokerRuns.Honest`). JetStream's
redelivery rule, `ConsumerConfig.AckTimeout`, is the one measured in
`internal/brokersemantics/redelivery_test.go:123-136`.

## What turned out not to hold as documented

* `Schedule.Validate` adds durations in int64. A ladder whose sum wraps can be accepted against
  the tightest bound (`Schedules.OverflowDefeatsTheBound`). `Schedules.AcceptedBoundIff` says
  exactly when the accepted bounds hold of the real wait: when that wait fits in a duration.
  RecoverBy fails the same way: an accepted schedule may wait out the breaker's threshold long
  before RecoverBy (`Schedules.OverflowDefeatsRecovery`), and keeps the promise if and only if
  the wait to RecoverBy fits in a duration (`Schedules.RecoveryKeptIff`).
* "A faithful dry run" (`jsconsumer/retry.go:198-202`) is not unconditional: a message that trips
  before its last rung is acked by enforcing and left on its ladder by observing. With the
  enforcing run given only messages whose ack has not landed, confirmed or not, the two report
  the same trips call for call if and only if no sequence that tripped early trips again in the
  observing run (`ObserveRuns.DryRunFaithfulIff`), and after every early trip the next delivery
  can do so (`ObserveRuns.EarlyTripsCanRepeat`). Fed the same calls, they agree while no sequence
  reported dead-lettered early comes back (`ObserveRuns.ObserveIsAFaithfulDryRun`), and those are
  exactly the ones a next call could tell them apart by (`ObserveRuns.DivergesExactlyOnReturn`).
  Sweeps can tell them apart as well, since the two need not hold equally many clocks: exactly
  on the sequences one of them evicts and the other keeps (`ObserveRuns.SweptAlikeIff`).
* A message settled on every delivery does not always end dead-lettered, stranded or uncertain:
  an ack that lands without its confirmation below the cap ends the run with the report
  `retried`. `BrokerRuns.RunsEndTerminallyIff` shows this is the only exception, and
  `BrokerRuns.LostConfirmationEndsRetried` that it occurs.
* The comment on `failureTTL` (`jsconsumer/retry.go:569-571`) promises that a message still riding
  the ladder is never forgotten. The limit is the larger of an hour and a wrapping fourfold of
  FloorAge, whatever the ladder's length, and deliveries served elsewhere, lost or interrupted
  touch no clock. For its age no message is forgotten mid-flight if and only if the limit covers
  the whole time to dead-letter (`RetryCore.NeverForgottenMidFlightIff`); across g rungs without
  a noted failure, on all accepted ladders, if and only if it covers g thresholds
  (`RetryCore.LadderNeverExpiresIff`). Fifteen-minute rungs under a fifteen-minute threshold
  lose a clock across five (`RetryCore.QuarterHourLadderForgets`), and some thresholds of 73
  years and more lose one across a single rung (`RetryCore.LimitCoversThresholdIff`). For room a
  clock may go at any time: a note forgets
  unexpired clocks exactly when the map overflows and more than 3072 of them are left
  (`RetryCore.LiveClockLostIff`), as 4097 messages failing together do
  (`RetryCore.SweepForgetsOnTheLadder`).
* A stranded settlement is documented to mean that nothing reached the DLQ
  (`jsconsumer/retry.go:85-86`). That is true of its own call; over the run it is if and only if
  no earlier settlement reported Captured and no publish reported failed was stored all the same
  (`BrokerRuns.StrandedMeansNoCopyIff`), and both happen (`BrokerRuns.StrandedWithACopy`).
* `DelayFor` grows monotonically exactly when NakDelay is not above MaxDelay
  (`Schedules.DelayForMonotoneIff`).
* The hop counter is an int: at its maximum it wraps and the next capture starts again from one
  (`DeadLetter.NextCount`).

## Model

| member | source | states |
|---|---|---|
| Basics.WrapAdd | jsconsumer/schedule.go:129-135 | wrapping each int64 addition of the ladder sum leaves the exact sum wrapped once |
| Schedules.DelayForMonotoneIff | backoff/backoff.go:218-232 | a growing client ladder never shrinks if and only if its first delay is not above the cap |
| Schedules.ClientLadder | jsconsumer/schedule.go:120-121 | a client ladder starts at NakDelay, never shrinks, never exceeds a positive cap, and is flat for a factor of at most one |
| Schedules.ClientLadderGrows | backoff/backoff.go:218-232 | each rung of a growing client ladder is the factor times the one before, short of a nanosecond either way, until the cap or the largest duration takes over |
| Schedules.CumulativeTo | jsconsumer/schedule.go:129-135 | the accumulator loop returns the exact wait wrapped to int64 |
| Schedules.Longest | jsconsumer/schedule.go:139-145 | an upper bound of every rung served, attained unless it is zero |
| Schedules.LongestRung | jsconsumer/schedule.go:139-145 | the loop returns that maximum over deliveries 2 to the dead-letter one |
| Schedules.WaitedClosedForm | jsconsumer/schedule.go:95-125 | the wait is the sum of the first n-1 rungs plus repeats of the last rung once they run out |
| Schedules.WaitedWithoutLadder | jsconsumer/schedule.go:104-109 | with no ladder the wait is AckWait repeated, not zero |
| Schedules.WaitedMonotone | jsconsumer/schedule.go:127-135 | with nonnegative rungs the wait never decreases in the delivery number |
| Schedules.NoPartialSumOverflows | jsconsumer/schedule.go:127-135 | rungs of at most R with (n-1)*R in range keep every partial sum of the loop exact |
| Schedules.Validate | jsconsumer/schedule.go:158-270 | the report holds exactly the problems that hold, once each, how the ladder is built before how long it takes, and is empty exactly for a coherent schedule |
| Schedules.CoherentIff | jsconsumer/schedule.go:158-270 | acceptance in closed form: one scheduler, every rung a real wait served under the cap, an AckWait that is the first wait served, and the timing conditions |
| Schedules.AcceptedBoundIff | jsconsumer/schedule.go:219-230 | an accepted bound on the time to dead-letter, and on retention, holds of the real wait if and only if that wait fits in a duration |
| Schedules.OverflowDefeatsTheBound | jsconsumer/schedule.go:222-226 | four rungs of 2^62 ns pass a bound of one nanosecond |
| Schedules.BreakerWindow | jsconsumer/schedule.go:238-268 | some delivery up to the dead-letter one falls in [FloorAge, FloorAge+LongestRung], within 2*FloorAge; it is the first, and exceeds RecoverBy if and only if the wait to RecoverBy fits in a duration |
| Schedules.RecoverySafe | jsconsumer/schedule.go:239-246 | with the wait to RecoverBy in range, a delivery that has waited FloorAge is later than RecoverBy |
| Schedules.RecoveryKeptIff | jsconsumer/schedule.go:238-246 | an accepted schedule keeps every delivery up to RecoverBy below the threshold if and only if the wait to RecoverBy fits in a duration |
| Schedules.OverflowDefeatsRecovery | jsconsumer/schedule.go:242-246 | an accepted schedule with RecoverBy 5 whose delivery 2 has waited out the threshold |
| Floor.AcceptedMonitorSamples | jsconsumer/floor.go:106-133 | construction accepts exactly thresholds longer than their poll interval, and keeps the threshold and the interval it was given or the documented defaults |
| Floor.StallClockMeaning | jsconsumer/floor.go:158-187 | over every stream of readings: stalled exactly when the last is blocked, and timed from the first reading of the longest unbroken run |
| Floor.StallAnswer | jsconsumer/floor.go:142-149 | a caller is told the last reading's floor, and the time since the reading that began the stall, zero when there is none |
| Floor.WarnsOncePerStall | jsconsumer/floor.go:288-301 | between two warnings some poll saw the stall broken |
| Floor.StallIsReported | jsconsumer/floor.go:288-301 | a stall past the threshold has been warned about by the end of the poll that sees it |
| Floor.WarnsExactlyWhen | jsconsumer/floor.go:288-301 | a poll warns if and only if its stall has lasted the threshold since the poll that first saw it and nobody has warned of it yet |
| Floor.FloorMonitor.constructor | jsconsumer/floor.go:116-120 | a new monitor is not stalled and has no polls |
| Floor.FloorMonitor.FloorStall | jsconsumer/floor.go:142-149 | the floor, the stall's age and whether there is one, from the monitor's state |
| Floor.FloorMonitor.ObserveFloor | jsconsumer/floor.go:171-187 | the new state is the stall clock's step on the reading |
| Floor.FloorMonitor.PollOnce | jsconsumer/floor.go:268-308 | a failed request changes nothing; a reading updates the clock and warns once per stall |
| Floor.MostPollsIsHighWater | jsconsumer/floor.go:231-240 | over every history of poll loops the two counters are how many run now and how many ran at the busiest moment |
| RetryCore.NewRetryAcceptsIff | jsconsumer/retry.go:600-673 | construction accepts exactly the configurations whose numbers hang together and builds exactly the one asked for: mode, caps, threshold, defaults and the age limit of the failure clocks |
| RetryCore.NeverForgottenMidFlightIff | jsconsumer/retry.go:569-572 | on an accepted ladder no clock expires between any two deliveries of its message if and only if the age limit covers the whole time to dead-letter |
| RetryCore.LadderNeverExpiresIff | jsconsumer/retry.go:569-572 | on every accepted ladder a clock survives g rungs without a noted failure if and only if the age limit covers g thresholds |
| RetryCore.QuarterHourLadderForgets | jsconsumer/retry.go:664-667 | an accepted ladder of fifteen-minute rungs on which a clock noted at delivery 2 has expired by delivery 7 of 9 |
| RetryCore.LimitCoversThresholdIff | jsconsumer/retry.go:664-667 | exactly which thresholds have a limit that covers even one of them, the overflow of four FloorAges included |
| RetryCore.LiveClockLostIff | jsconsumer/retry.go:771-813 | a note loses an unexpired clock exactly when more than 4096 are held and more than 3072 of them are unexpired, and then the excess over 3072 |
| RetryCore.SweepForgetsOnTheLadder | jsconsumer/retry.go:569-572 | it happens: 4097 messages failing together leave 1025 of them forgotten, measuring zero when they fail again |
| RetryCore.BoundedClocks | jsconsumer/retry.go:758-813 | at most 4096 clocks, 3072 after a sweep; the failure just noted keeps its start and moves its last time to now, every other survivor is unchanged; only expired or oldest-touched records lost |
| RetryCore.SettleReportsTruthfully | jsconsumer/retry.go:976-1051 | outcome, error, cause and Captured agree with what was asked of the broker and answered; retried only below the cap; at the cap one of three terminal outcomes even when cancelled |
| RetryCore.CancelledDeliveryIsDeferred | jsconsumer/retry.go:979-1047 | a delivery counts as interrupted exactly when it is cancelled below the broker's cap: it then asks nothing of the broker and moves no clock or budget; every other one is judged in full |
| RetryCore.SettleReportsItsState | jsconsumer/retry.go:991-1012 | the settlement reports the observations it was chosen from; an interrupted call feeds no clock and trips nothing |
| RetryCore.DeadLetterReportsTruthfully | jsconsumer/retry.go:1185-1200 | an explicit DeadLetter publishes at once, never trips the breaker, and reports truthfully, the state of the call included |
| RetryCore.NoMetadataNeverTerminal | jsconsumer/retry.go:1202-1211 | without metadata nothing is exhausted, nothing trips and no budget is spent |
| RetryObject.SortByLastSorts | jsconsumer/retry.go:805-809 | the sweep's order: oldest touched first, the same records |
| RetryObject.Retry.constructor | jsconsumer/retry.go:668-672 | a new Retry tracks no failure and has claimed nothing |
| RetryObject.Retry.NoteFailure | jsconsumer/retry.go:758-774 | the clock is kept from the first failure, swept past 4096, and the measured duration returned |
| RetryObject.Retry.ForgetFailure | jsconsumer/retry.go:777-781 | exactly that clock is dropped |
| RetryObject.Retry.SweepFailures | jsconsumer/retry.go:789-813 | expired clocks go; if more than 3072 remain, exactly that many of the latest-touched survive |
| RetryObject.Retry.EvictOldest | jsconsumer/retry.go:795-812 | the survivors of the second half are untouched and none is older than a victim |
| RetryObject.Retry.SpendQuarantineBudget | jsconsumer/retry.go:918-928 | a claim succeeds exactly when the window allows it and is then recorded |
| RetryObject.Retry.ShouldQuarantine | jsconsumer/retry.go:862-887 | the verdict is the conjunction plus the budget, and only a trip spends it |
| RetryObject.Retry.AwaitRedelivery | jsconsumer/retry.go:1254-1258 | reported once as retried, the broker asked nothing |
| RetryObject.Retry.Terminate | jsconsumer/retry.go:1064-1163 | capture, then ack; every way it falls short; one report |
| RetryObject.Retry.Settle | jsconsumer/retry.go:976-1051 | result, requests, report, clocks and budget after the call |
| RetryObject.Retry.Judge | jsconsumer/retry.go:977-1012 | the observations and the breaker's verdict before a branch is picked |
| RetryObject.Retry.Dispose | jsconsumer/retry.go:1026-1050 | the branch taken from them |
| RetryObject.Retry.DeadLetter | jsconsumer/retry.go:1185-1200 | result, requests, report and clocks after the call; the budget untouched |
| BreakerRuns.SettleIsThreeSteps | jsconsumer/retry.go:1001-1003 | a whole Settle is a note, a stall query and a claim of the interleaved history |
| BreakerRuns.FailureBehindClock | jsconsumer/retry.go:741-774 | every clock held was started by a failure of that sequence, through any sweeps |
| BreakerRuns.ForgottenStartsAfresh | jsconsumer/retry.go:776-781 | a dead-lettered sequence has no clock until it fails again |
| BreakerRuns.StallBehindMonitor | jsconsumer/floor.go:158-187 | every running stall clock is backed by an unbroken run of readings |
| BreakerRuns.TripsAreLate | jsconsumer/retry.go:842-887 | late, never early: behind every trip in every interleaving, an old enough failure of that sequence and an old enough stall below it |
| BreakerRuns.ClaimTripsExactlyWhen | jsconsumer/retry.go:862-887 | read off the history: a claim trips if and only if the message's kept clock and the unbroken stall below it have both lasted FloorAge, MinDeliveries is reached and the budget is open |
| BreakerRuns.NoTripWhileRecovering | jsconsumer/schedule.go:238-246 | with an accepted schedule whose wait to RecoverBy is in range, an on-ladder message trips only after RecoverBy |
| BreakerRuns.ConsecutiveTripsApart | jsconsumer/retry.go:889-928 | consecutive trips saw different floors or are FloorAge apart |
| BreakerRuns.ClaimTripsIff | jsconsumer/retry.go:900-928 | an eligible claim trips exactly when it is the first, the floor moved, or a window passed |
| BreakerRuns.QuarantineIsRationed | jsconsumer/retry.go:889-928 | at one floor, at most 1 + T/FloorAge trips in a span of length T, whatever the callers' clocks |
| ObserveRuns.EarlyIff | jsconsumer/retry.go:1026-1050 | the calls whose ack takes a message from the enforcing consumer and not from the observing one are exactly the captured trips before the last rung |
| ObserveRuns.DryRunFaithfulIff | jsconsumer/retry.go:198-202 | with the enforcing run given every call but those on messages its acks have removed, confirmed or not, both modes report the same trips if and only if no sequence trips again after an early trip under observation |
| ObserveRuns.EarlyTripsCanRepeat | jsconsumer/retry.go:198-202 | after any early trip, in any state, the next delivery of that message can trip again for observing while enforcing never sees it |
| ObserveRuns.ObserveIsAFaithfulDryRun | jsconsumer/retry.go:198-202 | fed the same calls, both modes report the same trips, given no sweep and no return of a sequence reported dead-lettered early |
| ObserveRuns.DivergesExactlyOnReturn | jsconsumer/retry.go:198-202 | after such a run the sequences whose next call could be judged differently are exactly those reported dead-lettered early |
| ObserveRuns.SweptAlikeIff | jsconsumer/retry.go:789-813 | whatever both runs' sweeps evict, a sequence is judged alike afterwards if and only if both kept its clock or both lost it |
| BrokerRuns.NeverASilentDrop | jsconsumer/retry.go:1064-1150 | in every run each ack follows a successful publish of its call, nothing is Naked or Termed, and a landed ack means a DLQ copy |
| BrokerRuns.SettledDeliveryOutcome | jsconsumer/retry.go:1026-1162 | terminal at the cap; retried below it unless the run ended |
| BrokerRuns.RunsEndTerminallyIff | jsconsumer/retry.go:949-975 | a fully settled run ends terminally unless an ack landed unconfirmed below the cap, and only then |
| BrokerRuns.LostConfirmationEndsRetried | jsconsumer/retry.go:968-972 | that exception occurs |
| BrokerRuns.CapDeliveryStillCaptures | jsconsumer/retry.go:1034-1050 | a capture and ack that succeed on the cap delivery dead-letter, cancelled or not |
| BrokerRuns.StrandedMeansNoCopyIff | jsconsumer/retry.go:85-86 | a run that ends stranded was never acked, and left nothing in the DLQ if and only if nothing was captured earlier and no failed publish was stored |
| BrokerRuns.StrandedWithACopy | jsconsumer/retry.go:176-178 | both exceptions occur |
| BrokerRuns.DuplicatesBounded | jsconsumer/retry.go:702-709 | without an enforcing breaker or explicit DeadLetter at most CaptureReserve+1 publishes, so at most that many copies |
| ConsumerConfig.Validate | jsconsumer/jsconsumer.go:283-355 | rejects with the first fault in order, accepts exactly when there is none |
| ConsumerConfig.AcceptableIff | jsconsumer/jsconsumer.go:258-384 | acceptance in closed form with the defaults written out, and the schedule that is checked |
| ConsumerConfig.MismatchReportsAsItself | jsconsumer/jsconsumer.go:328-349 | a MaxDeliver mismatch is never reported as an incoherent schedule |
| ConsumerConfig.CheckAgainstStream | jsconsumer/jsconsumer.go:411-432 | passes exactly when there is nothing to check or the ladder coheres with the retention actually read |
| ConsumerConfig.ArrivalIsWaited | jsconsumer/schedule.go:95-135 | the bridge from the schedule's cumulative wait to the broker's own redelivery clock for the durable Start creates |
| ConsumerConfig.AcceptedConfigMeansWhatItSays | jsconsumer/jsconsumer.go:325-350 | an accepted consumer's always-failing message is left alone until DeadLetterDelivery, reached in every complete run, and captured as exhausted there at exactly TimeToDeadLetter |
| ConsumerConfig.AcceptedBoundsHold | jsconsumer/jsconsumer.go:370-432 | that arrival is within MaxTimeToDeadLetter and before retention if and only if it fits in a duration |
| ConsumerConfig.AcceptedBreakerWindow | jsconsumer/jsconsumer.go:372-384 | on an accepted ladder some delivery arrives inside [FloorAge, 2*FloorAge] and none before it has waited FloorAge; it follows RecoverBy if and only if RecoverBy's arrival fits in a duration |
| ConsumerConfig.AcceptedBreakerFires | jsconsumer/retry.go:466-471 | in any interleaved history, while the floor is stalled below it and the budget open, a message failing on the broker's clock trips on exactly the deliveries past both that window and MinDeliveries |
| ConsumerConfig.AcceptedConfigProtectsRecovery | jsconsumer/jsconsumer.go:372-384 | on the broker's clock, RecoverBy's arrival being in range, no on-ladder message of an accepted consumer trips at or before RecoverBy |
| Decimal.FormatUintDigits | natsmsg/deadletter.go:358 | decimal printing yields digits whose value is the number |
| Decimal.NoLeadingZero | natsmsg/deadletter.go:358 | printed numbers have no leading zero |
| Decimal.AtoiInvertsItoa | natsmsg/deadletter.go:184-190 | parse inverts print over every int |
| DeadLetter.DeadLetter | natsmsg/deadletter.go:319-377 | the published message: subject, payload, and the header built in place |
| DeadLetter.CopyApplication | natsmsg/deadletter.go:320-330 | exactly the headers outside the case-folded Nats- namespace, character by character, are copied |
| DeadLetter.KeepsExactlyUnreserved | natsmsg/deadletter.go:170-178 | the filter keeps a key exactly unless its first five characters are Nats- in any letter case |
| DeadLetter.CarryOrigin | natsmsg/deadletter.go:340-347 | exactly the nonempty write-once values are put back |
| DeadLetter.CapturedShape | natsmsg/deadletter.go:132-172 | application headers unchanged; inside the namespace only the closed set of ten keys |
| DeadLetter.CapturedKeyByKey | natsmsg/deadletter.go:319-375 | key by key: outside the namespace a header is in the copy exactly if it was in the message, values equal; inside it only the ten documented keys, as spelled |
| DeadLetter.HopFieldsAreFresh | natsmsg/deadletter.go:370-375 | reason, hop count and delivery count are always this capture's own |
| DeadLetter.FirstCaptureRecords | natsmsg/deadletter.go:348-368 | a first capture records subject, publisher id, stream, sequence, domain and store time, and nothing where there is nothing |
| DeadLetter.RecordedOriginIsCarried | natsmsg/deadletter.go:340-347 | a recorded origin is carried field by field: the first value where there is one, no header where there is none |
| DeadLetter.OriginIsWriteOnce | natsmsg/deadletter.go:336-347 | over any chain of captures the origin after hop k is that after hop 1, absences included; application headers and payload never change |
| DeadLetter.NextCount | natsmsg/deadletter.go:180-190 | what one capture does to every hop count, the wrap at the top included |
| DeadLetter.CountStartsAtOneIff | natsmsg/deadletter.go:180-190 | the capture prints 1 exactly for an absent, garbled, negative, zero or out-of-range count |
| DeadLetter.HopsCount | natsmsg/deadletter.go:370-372 | after k captures the header prints the initial count plus k, for as long as that is an int |
| Copies.CopyIsFaithful | jsconsumer/retry.go:1213-1225 | every capture keeps payload and application headers and names its cause, reason and delivery |
| Copies.AckedMessageIsPreserved | jsconsumer/retry.go:1061-1150 | a run whose ack landed ends there, and that same call had put a faithful copy in the DLQ |
| Copies.DuplicatesShareTheirOrigin | natsmsg/deadletter.go:36-41 | all copies of one message carry one origin, whatever the delivery, cause or reason |
| Copies.IdentityIff | natsmsg/deadletter.go:218-222 | first captures agree on the replay dedupe key if and only if they were made from one stored message |
| ShutdownGroup.Group.constructor | shutdown.go:96-112 | a new group is open, empty and healthy |
| ShutdownGroup.Group.CancelContext | shutdown.go:97-101 | only the first cancellation sets the cause |
| ShutdownGroup.Group.Go | shutdown.go:140-152 | a loop is counted in exactly while the group is open |
| ShutdownGroup.Group.AddConn | shutdown.go:221-231 | a connection is accepted exactly while the group is open |
| ShutdownGroup.Group.RecordError | shutdown.go:195-209 | only the first failure is stored |
| ShutdownGroup.Group.RecordPrematureReturn | shutdown.go:175-190 | a return is recorded only while the group is open and live |
| ShutdownGroup.Group.Close | shutdown.go:242-249 | the group closes and its connections are taken |
| ShutdownGroup.StepKeepsInv | shutdown.go:140-277 | every interleaved step keeps the protocol's invariant |
| ShutdownGroup.NothingRegistersAfterClose | shutdown.go:137-152 | after close no loop or connection registers and the wait group is never added to |
| ShutdownGroup.RegistersUntilClose | shutdown.go:140-152 | over every run the group holds exactly the loops and connections it was given before the close, connections in order |
| ShutdownGroup.ShutdownNeverDrainsUnderALiveLoop | shutdown.go:233-277 | exactly the connections given before the close are drained; a clean result means every accepted loop returned before the first drain |
| ShutdownGroup.FirstFailureWins | shutdown.go:172-209 | the stored failure is written once, and a failure that is the context's cause is that one |
| ShutdownGroup.ErrIsTheFirstReport | shutdown.go:172-277 | Err is nil exactly while nothing has been reported, and then the first of: a panic, a live premature return, an expired join, a failed drain |
| ShutdownGroup.FailedLoopFailsTheGroup | shutdown.go:154-190 | a loop that panicked or returned while the group was live is recorded, and has cancelled its siblings' context before it is counted out |
| ShutdownGroup.ContextEndsAtTheFirstCancel | shutdown.go:97-117 | the context is live exactly until a failed loop, the parent or Shutdown ends it; past Shutdown's cancellation it is always done; its cause is never replaced |
| ShutdownGroup.FirstCancelGivesTheCause | shutdown.go:189-251 | the cause is the first canceller's: plain, the parent's, or the failure Err names |
| ShutdownGroup.PrematureOnlyWhileLive | shutdown.go:172-190 | a premature return is recorded only before close, on a live context |
| ShutdownGroup.ErrIsStableAfterShutdown | shutdown.go:154-169 | once Shutdown has returned Err never changes |
| ShutdownGroup.ShutdownIsNeverStuck | shutdown.go:242-277 | until it has finished, one of Shutdown's own steps can be taken, and a completed join is noticed |
| ShutdownGroup.CompletionIsPreferred | shutdown.go:279-300 | once the loops' wait has returned the join timer can no longer win |
| ShutdownGroup.ShutdownStepsAreBounded | shutdown.go:242-277 | after the close Shutdown takes at most four steps and two per connection, in every interleaving |
| Runner.TraceKeepsInv | jsconsumer/jsconsumer.go:510-555 | every interleaving of callers, watcher, handler, timer and poll keeps the runner's invariant |
| Runner.StateIsHistory | jsconsumer/jsconsumer.go:637-684 | time, the handler in flight, the closed loop, the cancelled contexts and the live poll are exactly what the trace says has happened |
| Runner.ParentOrLoopStartsAStop | jsconsumer/jsconsumer.go:671-683 | the watcher has called Stop or can if and only if the parent was cancelled or the loop closed |
| Runner.CancelledOnlyAfterTheWindow | jsconsumer/jsconsumer.go:510-555 | the handler context is cancelled only after the loop closed or the whole drain window passed since pulling stopped |
| Runner.NoExpiryAfterClose | jsconsumer/jsconsumer.go:538-555 | a loop that closed before the window was found spent is never treated as having outlasted it |
| Runner.StopJoinsEverything | jsconsumer/jsconsumer.go:506-536 | a Stop that has returned finds the loop closed, no handler in flight, the context released and the poll ended |
| Runner.PullingStopsOnce | jsconsumer/jsconsumer.go:514-515 | pulling stops once whoever races, and nothing is delivered after |
| Runner.StopIsNeverStuck | jsconsumer/jsconsumer.go:506-555 | while a caller has not returned, some Stop call can step, a poll is about to end, or all wait for an open loop within the window or past the cancellation |
| Runner.StopStepsAreBounded | jsconsumer/jsconsumer.go:506-555 | between new calls the Stop callers take at most six steps and three each, in every interleaving |
| Runner.AtMostOneFloorPoll | jsconsumer/jsconsumer.go:785-793 | across all recreates at most one floor poll is live |
| Runner.DelayIsExponential | jsconsumer/jsconsumer.go:791-813 | the pause is one second doubled for every pause since the last loop that lived thirty seconds, measured on the trace, capped at thirty |
| Runner.ContextStopsTheLoop | jsconsumer/jsconsumer.go:780-792 | after its context is cancelled, or the loop has closed, a supervising Run can always go and stop the loop |
| Runner.RunEndsOnlyFor | jsconsumer/jsconsumer.go:740-813 | Run returns nil only for its context and an error only for a permanent start error, which ends it on the spot |
| Runner.RunIsNeverStuck | jsconsumer/jsconsumer.go:757-813 | Run can take a step, or watches an open loop with a live context, or is inside a Stop that can itself move |
| Runner.RunEndsAfterCancellation | jsconsumer/jsconsumer.go:757-813 | with its context done Run takes at most four more steps, one last start among them |
| Runner.RunReturnsWithEverythingDown | jsconsumer/jsconsumer.go:757-813 | when Run returns every loop it started is down; the pause between attempts stays in its envelope |
| Heartbeat.TickLoop | natsmsg/keepinprogress.go:63-85 | the calls made: a prefix of the ticks, cut by the first permanent failure and by the cap of fifteen |
| Heartbeat.LeaseHolds | natsmsg/keepinprogress.go:36-48 | one dropped extension between successes never lets the lease lapse, ticks late by less than an interval included |
| Heartbeat.LeaseEnds | natsmsg/keepinprogress.go:12-20 | a wedged handler's lease ends within six AckWaits plus the last tick's lateness |
| Heartbeat.TwoDropsCanLapse | natsmsg/keepinprogress.go:43-48 | two drops in a row can lapse it |
| Heartbeat.NoCallAfterStop | natsmsg/keepinprogress.go:53-91 | at most fifteen calls; none in flight or started after any stop returned or after a permanent failure |
| Heartbeat.KeepsTickingUntil | natsmsg/keepinprogress.go:67-85 | every tick up to the fifteenth is a call; the heartbeat ends for a permanent failure, the cap or a stop and nothing else, a transient failure keeps it ticking |
| Heartbeat.StopIsNeverStuck | natsmsg/keepinprogress.go:86-91 | a stop that has not returned can, or the goroutine can see it, or one call is still to be answered |

## Left out

- Breaker concurrency beyond lock regions: the object `Retry` runs one call at a time; interleavings are proved in `BreakerRuns` over the same step functions, and each lock region is one step.
- Runner.Stop and Run as objects: they block on channels, so they are step systems over values; aliasing of a `*Runner` is not captured.
- ShutdownGroup drains: a drain is an opaque step that may fail; `drain.go`'s waiting on the connection is not modelled.
- Schedules.RungBefore: the client ladder grows over exact reals; float64 rounding of `math.Pow` is not modelled.
- RetryObject.SortByLastSorts: which of several equally old records the library sort puts first is left open, as an insertion sort stands in for it.
- ConsumerConfig.Validate: strings and filter subjects are reduced to being set or not, and the index of an empty filter is not reported.
- Runner.RunReturnsWithEverythingDown: the pause between attempts is a step, not a timed wait; which of a ready timer and a done context wins the select is left open, as Go leaves it.
- JetStream requests (stream info, consumer creation, consume, consumer info) and the classifier of retryable start errors are nondeterministic results.
- nats.Header's Get and Set are modelled as exact-key map access; RFC 3339 formatting is an opaque nonempty text.
- Logging, metrics callbacks beyond one report per settlement, tracing, `Process`, `SubjectToken`, `NakOrTerm`, `connect.go`, `natsmsg/publish.go`.
