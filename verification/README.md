# Idle clicker: session timing and scoring engine in Dafny

This project models the engine behind the idle clicker's play screen:

- the live **work session** (start, pause, click, reset);
- the **interval timer** that measures elapsed time;
- the **work-timer orchestrator**, which keeps the last ten click timestamps, derives inter-click gaps, computes units per minute (UPM) and pushes snapshots to a single subscriber;
- the **smoothness calculator** and the **RPG reward system**, including its one-entry memo;
- the persisted **session record** and its JSON round trip;
- the **session service**, which keeps the list of sessions and the open one;
- the two **duration formatters**.

Every operation is a pure function over an immutable datatype. The clock (`Date.now()`, `new Date()`) becomes an explicit `now: int` argument. `Math.sqrt` becomes a function-typed argument `sqrt`. Properties that need it assume only `SqrtLike`: `sqrt(0) == 0`, and `sqrt(x) >= 0` for `x >= 0`. `Math.round(x)` is `Floor(x + 0.5)`. Scores and rates are `real`; timestamps and durations are `int`.

Modules follow the source's files:

- `Basics`: option, result and the numeric helpers.
- `Metrics`: the record shapes of `types/metrics.ts` and the UPM rule.
- `Smoothness`, `RewardSystem`, `WorkSessions`, `IntervalTimer`, `WorkTimer`, `Sessions`, `SessionRepository`: one per source file.
- `Text`: `String(n)` and `padStart`.
- `TimeFormat`: `formatTime`, `formatDuration` and `getElapsedTime`.

Where the code departs from the behaviour its comments and names suggest, the model follows the code:

- The interval timer does not accumulate elapsed time across pause and resume, as a drift-free session clock would. A resume re-anchors the start time, so `IntervalTimer.ResumeReanchors` reads `now - resumedAt`.
- A paused work session cannot be resumed, because `start` only acts while no start time is set. Only `reset` makes it startable again (`WorkSessions.PausedStaysPaused`).
- `resetSession` leaves the timer stopped, and the reset use case ignores its argument. The work session's `reset` does not zero the stored smoothness and rewards.
- Rhythm is set equal to consistency, and flow state is `round(0.8 × consistency)`. They are not a separate rhythm score from the ratios of consecutive gaps, nor a flow state of `round((consistency + rhythm) / 2)`.
- `addNote` does no validation of the note's text or timestamp.
- `fromJSON` drops the stored UPM; see Findings.
- After `initialize` the current session is a separate copy of its list entry, so ending it leaves the entry open; see Findings.
- With a subscriber registered and the timer running, reading the metrics calls the subscriber's notifier, which reads the metrics again, without end. Every orchestrator operation therefore takes a wiring: `AsWritten` ends such calls in a stack overflow, and `SingleNotify` gives one notification per command or interval firing. See Findings.

## Model

| member | source | states |
|---|---|---|
| Basics.Abs | application/services/SmoothnessCalculator.ts:27-29 | `Math.abs` is non-negative and is its argument or its negation |
| Basics.Max | application/services/SmoothnessCalculator.ts:21 | `Math.max` is at least both arguments and is one of them |
| Basics.Round | application/services/SmoothnessCalculator.ts:21 | `Math.round` lands within half a unit of its argument (strictly above `x - 0.5`, at most `x + 0.5`) |
| Metrics.UnitsPerMinute | infrastructure/services/WorkTimerServiceImpl.ts:126-129 | a non-positive elapsed time gives a rate of 0 |
| Metrics.UnitsPerMinuteRounding | infrastructure/services/WorkTimerServiceImpl.ts:126-129 | over a positive span the rate has one decimal place, lies within 0.05 of the exact clicks-per-minute, and is non-negative for non-negative clicks |
| Metrics.UnitsPerMinuteExamples | infrastructure/services/WorkTimerServiceImpl.ts:126-129 | 30 clicks in 60000 ms give 30.0; 3 clicks in 1200 ms give 150.0; no elapsed time gives 0 |
| Smoothness.SquaredDeviations | application/services/SmoothnessCalculator.ts:16 | the variance numerator is never negative |
| Smoothness.CountInBand | application/services/SmoothnessCalculator.ts:27-29 | a filtered count never exceeds the number of gaps |
| Smoothness.Consistency | application/services/SmoothnessCalculator.ts:19-21 | consistency is in 0..100 for a non-negative deviation, and is exactly 100 when the deviation is 0 |
| Smoothness.ConsistencyMonotone | application/services/SmoothnessCalculator.ts:19-21 | for a positive mean gap, a larger standard deviation never gives a higher consistency |
| Smoothness.FlowState | application/services/SmoothnessCalculator.ts:25 | flow state is between 0 and the consistency, and at most 80 when consistency is at most 100 |
| Smoothness.CalculateSmoothnessScore | application/services/SmoothnessCalculator.ts:3-38 | no gaps give the all-zero record; rhythm always equals consistency; both critical counts lie between 0 and the number of gaps; consistency is non-negative |
| Smoothness.ScoresBounded | application/services/SmoothnessCalculator.ts:17-25 | with a square root that is non-negative on non-negative inputs, consistency lies in 0..100 and flow state lies between 0 and the consistency and is at most 80 |
| Smoothness.BandsDisjoint | application/services/SmoothnessCalculator.ts:27-29 | with a non-negative mean, no gap is both within 10% and more than 50% away, so the two counts sum to at most the length |
| Smoothness.CriticalCountsDisjoint | application/services/SmoothnessCalculator.ts:27-29 | with a non-negative mean gap, critical successes plus critical failures number at most the gaps |
| Smoothness.SumEven | application/services/SmoothnessCalculator.ts:15 | the sum of n equal gaps g is n·g |
| Smoothness.SquaredDeviationsEven | application/services/SmoothnessCalculator.ts:16 | equal gaps have zero squared deviation from their common value |
| Smoothness.CountEven | application/services/SmoothnessCalculator.ts:27-29 | equal non-negative gaps are all critical successes and none is a critical failure |
| Smoothness.UnevenGapsFail | application/services/SmoothnessCalculator.ts:14-29 | gaps of 100 and 10000 ms have mean 5050, so both lie more than 50% from it: two critical failures and no success |
| Smoothness.EvenGapsArePerfect | application/services/SmoothnessCalculator.ts:14-29 | perfectly even tapping scores consistency and rhythm 100, flow 80, every gap a critical success and none a failure |
| RewardSystem.Compute | application/services/RPGRewardSystem.ts:29-38 | experience is at least 1; the streak multiplier is 1.5 exactly when flow state is at least 80, otherwise 1; achievement points are 10 × critical successes; non-negative inputs give non-negative outputs |
| RewardSystem.ZeroMetricsGiveBaseline | application/services/RPGRewardSystem.ts:29-38 | metrics with no consistency, rhythm or critical success and below the flow threshold earn one experience point, a multiplier of 1 and nothing else |
| RewardSystem.ExperienceMonotoneInConsistency | application/services/RPGRewardSystem.ts:29-34 | with the other inputs held fixed, experience does not drop as consistency grows |
| RewardSystem.FlowBonusIgnoresFlowState | application/services/RPGRewardSystem.ts:30 | the flow bonus is the rounded mean of consistency and rhythm, whatever the flow state |
| RewardSystem.CalculateRewards | application/services/RPGRewardSystem.ts:10-42 | each call leaves the memo holding its own input and output; from a coherent memo the answer equals the unmemoised rewards; coherence is preserved |
| RewardSystem.RepeatedCallsAgree | application/services/RPGRewardSystem.ts:22-27 | a second call with the same metrics, from any memo, returns the first call's rewards and leaves the memo unchanged |
| WorkSessions.IsRunning | domain/entities/WorkSession.ts:79-83 | running is exactly the phase between a start stamp and a pause stamp |
| WorkSessions.New | domain/entities/WorkSession.ts:18-23 | a fresh entity is idle and not running, with no timestamps, no clicks and no elapsed time |
| WorkSessions.Start | domain/entities/WorkSession.ts:25-34 | a never-started entity starts running at `now`; an already started one (running or paused) is unchanged; only the start time can change |
| WorkSessions.Pause | domain/entities/WorkSession.ts:36-45 | a running entity becomes paused at `now`; any other is unchanged; afterwards it is never running; only the end time can change |
| WorkSessions.RecordClick | domain/entities/WorkSession.ts:47-51 | exactly one more click in any phase; nothing else changes |
| WorkSessions.Reset | domain/entities/WorkSession.ts:53-60 | the result is the fresh entity from any state, carrying over only the two derived records that reset does not assign |
| WorkSessions.UpdateSmoothnessMetrics | infrastructure/services/WorkTimerServiceImpl.ts:72 | stores the smoothness record and changes nothing else: phase, running flag and clicks are as before |
| WorkSessions.UpdateRewards | infrastructure/services/WorkTimerServiceImpl.ts:74 | stores the rewards record and changes nothing else: phase, running flag and clicks are as before |
| WorkSessions.PauseIdempotent | domain/entities/WorkSession.ts:38-42 | pausing twice equals pausing once, whatever the times |
| WorkSessions.StartIdempotent | domain/entities/WorkSession.ts:27-32 | starting twice equals starting once, whatever the times |
| WorkSessions.ElapsedAlwaysZero | domain/entities/WorkSession.ts:18-72 | after any sequence of events from a fresh entity the elapsed field reads 0, and an end time never exists without a start time |
| WorkSessions.PausedStaysPaused | domain/entities/WorkSession.ts:25-45 | once paused, no sequence of events without a reset makes the entity run again; both timestamps stay as they were |
| WorkSessions.ResetFromAnyHistory | domain/entities/WorkSession.ts:53-60 | after any history, a final reset leaves the entity idle with no clicks and no elapsed time |
| IntervalTimer.New | infrastructure/TimerServiceImpl.ts:16-19 | the timer starts inactive with start, elapsed and last-update all 0 |
| IntervalTimer.Start | infrastructure/TimerServiceImpl.ts:22-34 | afterwards the timer is active; an active timer is unchanged; an inactive one is anchored at `now`; the elapsed value is not touched |
| IntervalTimer.Pause | infrastructure/TimerServiceImpl.ts:36-42 | deactivates without refreshing the elapsed value or moving the anchor |
| IntervalTimer.Reset | infrastructure/TimerServiceImpl.ts:44-54 | from any state the result is the initial timer |
| IntervalTimer.Tick | infrastructure/TimerServiceImpl.ts:72-82 | while active, elapsed becomes `now - startTime` and last-update becomes `now`; while inactive nothing changes |
| IntervalTimer.GetElapsedTimeMs | infrastructure/TimerServiceImpl.ts:56-60 | while active the reading is `now - startTime`; while inactive it is the stored value and the timer is unchanged; the stored value always equals the reading |
| IntervalTimer.PauseFreezesLastRefresh | infrastructure/TimerServiceImpl.ts:36-60 | after a refresh and a pause, every later reading returns the elapsed time of that refresh |
| IntervalTimer.ResumeReanchors | infrastructure/TimerServiceImpl.ts:22-34 | after pause and resume, the reading is measured from the resume, discarding the earlier running segment |
| IntervalTimer.ReadingsMonotone | infrastructure/TimerServiceImpl.ts:72-76 | while active, readings at non-decreasing times do not decrease |
| WorkTimer.PushClick | infrastructure/services/WorkTimerServiceImpl.ts:63-67 | the new time is last; before it comes the old window, minus its oldest entry when it was full; a window of at most ten stays at most ten |
| WorkTimer.WindowIsLatestTen | infrastructure/services/WorkTimerServiceImpl.ts:63-67 | after any sequence of clicks the window is exactly the latest min(n, 10) click times, oldest first |
| WorkTimer.Gaps | infrastructure/services/WorkTimerServiceImpl.ts:131-133 | the gap list has length max(0, n - 1), and gap i is entry i+1 minus entry i |
| WorkTimer.GapsSpanWindow | infrastructure/services/WorkTimerServiceImpl.ts:131-133 | the gaps telescope: their total is the last click time minus the first |
| WorkTimer.GapsOfOrderedWindow | infrastructure/services/WorkTimerServiceImpl.ts:131-133 | click times that never decrease give non-negative gaps |
| WorkTimer.Create | infrastructure/services/WorkTimerServiceImpl.ts:20-36 | starts with an empty window, no subscriber and an inactive timer; well-formed from a well-formed entity |
| WorkTimer.GetCurrentMetrics | infrastructure/services/WorkTimerServiceImpl.ts:106-116 | the read overflows the stack exactly when the wiring is the source's re-entrant one, the interval is set and a subscriber is registered; otherwise the snapshot's elapsed time is the timer's reading, its rate is the UPM of that time and the click count, and it carries the entity's running flag, clicks, smoothness and rewards; either way only the timer refreshes |
| WorkTimer.Publish | infrastructure/services/WorkTimerServiceImpl.ts:42-46 | the snapshot just read reaches a registered subscriber and the command returns its value, unless the read overflowed, in which case nothing is pushed and the overflow propagates |
| WorkTimer.NotifySubscriber | infrastructure/services/WorkTimerServiceImpl.ts:31-35 | a snapshot is read only when a subscriber is registered; it is pushed unless the read re-enters, in which case the call overflows; without a subscriber nothing changes |
| WorkTimer.StartTimer | infrastructure/services/WorkTimerServiceImpl.ts:38-47 | as written, with a subscriber the call overflows and pushes nothing; otherwise it returns true and pushes a snapshot exactly when subscribed; either way the timer is active and anchored at `now` if it was inactive, a never-started entity is running, and clicks and window are untouched |
| WorkTimer.PauseTimer | infrastructure/services/WorkTimerServiceImpl.ts:49-58 | under either wiring returns false; timer and entity are stopped; the pushed snapshot shows the elapsed time of the last refresh, the clicks, a stopped timer and the rate over that span |
| WorkTimer.IncrementClicks | infrastructure/services/WorkTimerServiceImpl.ts:60-80 | whether or not the timer runs, one more click and its time in the window; smoothness recomputed from the new window's gaps; stored rewards are those the reward rules give for that smoothness; the phase, timer and subscriber are unchanged; the final notification overflows exactly when the read re-enters, and is pushed only otherwise |
| WorkTimer.ResetSession | infrastructure/services/WorkTimerServiceImpl.ts:82-92 | under either wiring returns; empty window, initial timer, reset entity; the returned snapshot shows no time, no rate, no clicks and a stopped timer, and is the one pushed if subscribed |
| WorkTimer.Tick | infrastructure/TimerServiceImpl.ts:72-82 | with an inactive timer nothing happens; while active, elapsed is refreshed to `now - startTime`, and the callback overflows as written when a subscriber is registered and pushes one snapshot to it when single-notifying |
| WorkTimer.OnMetricsUpdate | infrastructure/services/WorkTimerServiceImpl.ts:118-120 | the new callback replaces any previous one; nothing else changes |
| WorkTimer.ClearMetricsUpdateCallback | infrastructure/services/WorkTimerServiceImpl.ts:122-124 | no subscriber remains; nothing else changes |
| WorkTimer.RunKeepsValid | infrastructure/services/WorkTimerServiceImpl.ts:60-92 | over any sequence of commands, under either wiring, the window holds at most ten times, the reward memo stays coherent and the entity's elapsed field stays 0 |
| WorkTimer.WiringsAgreeOnState | infrastructure/TimerServiceImpl.ts:72-82 | the refresh stores its time before calling back, so both wirings leave the same state after any sequence of commands; they differ only in how calls end and what is pushed |
| WorkTimer.StartWithSubscriberOverflows | infrastructure/services/WorkTimerServiceImpl.ts:31-47 | as written, registering a subscriber and then starting the timer never returns: the call overflows, the subscriber receives nothing, and the timer is left running |
| WorkTimer.StartWithSubscriberNotifiesOnce | infrastructure/services/WorkTimerServiceImpl.ts:38-47 | with single notification the same start from a stopped timer returns true and pushes one snapshot showing no elapsed time, the clicks so far and a rate of 0 |
| WorkTimer.ClickLeavesTimer | infrastructure/services/WorkTimerServiceImpl.ts:60-80 | a click changes neither the timer's activity and anchor nor the subscriber, and adds exactly one click |
| WorkTimer.PauseReportsLastTick | infrastructure/services/WorkTimerServiceImpl.ts:49-58 | under either wiring, after a tick and a later pause, the pushed snapshot shows the elapsed time as of the tick, not the pause |
| WorkTimer.RestartTicksWhilePaused | infrastructure/services/WorkTimerServiceImpl.ts:38-58 | starting again after a pause re-arms the interval but leaves the entity paused, so the timer counts from the restart while snapshots report a stopped session |
| Sessions.CompletionOnlyByEndTime | domain/entities/Session.ts:154-156 | `isComplete` depends on the end time alone: setting clicks, duration, a note or smoothness never changes it, setting an end time makes a record complete and a new record is open |
| Sessions.NewSession | domain/entities/Session.ts:37-52 | a new record is open, with no clicks, no notes, zero rate, zero duration and zero smoothness |
| Sessions.SetEndTime | domain/entities/Session.ts:94-96 | the record becomes complete with the given end time; nothing else changes |
| Sessions.SetTotalClicks | domain/entities/Session.ts:98-105 | stores the clicks; the rate is recomputed from the duration only when the duration is positive, and is otherwise unchanged |
| Sessions.SetDuration | domain/entities/Session.ts:122-128 | stores the duration; the rate is recomputed only when some clicks are known, and is otherwise unchanged |
| Sessions.SettersAgree | domain/entities/Session.ts:98-128 | with positive clicks and duration, the two setters commute and the rate reflects both |
| Sessions.AddNote | domain/entities/Session.ts:107-109 | the note is appended after the earlier notes, in order, with no validation; nothing else changes |
| Sessions.UpdateSmoothnessMetrics | domain/entities/Session.ts:158-166 | replaces the smoothness snapshot and nothing else |
| Sessions.SetProperties | domain/entities/Session.ts:111-120 | an empty id or zero start time is ignored; a present end-time key is taken even when null; clicks go through the UPM rule; notes are replaced; the rate property changes nothing |
| Sessions.FromJson | domain/entities/Session.ts:142-152 | restores id, stamps, clicks, notes and smoothness exactly; the rate and duration come back as 0 |
| Sessions.ToJson | domain/entities/Session.ts:130-140 | read back through `fromJSON`, a record is itself except that its rate and duration are 0 |
| Sessions.RoundTripDropsRate | domain/entities/Session.ts:119 | a completed record with a rate of 150.0 reads back with a rate of 0 |
| Sessions.SetPropertiesStoringRate | domain/entities/Session.ts:111-120 | corrected: a numeric rate property is stored; every other field is as `setProperties` leaves it |
| Sessions.FromJsonStoringRate | domain/entities/Session.ts:142-152 | corrected: the stored rate is restored, and every other field is as the as-written reader gives it |
| Sessions.RoundTripStoringRate | domain/entities/Session.ts:130-152 | corrected: the round trip loses only the duration, which is never serialised |
| SessionRepository.EmptyValid | application/services/SessionService.ts:8-9 | the empty repository satisfies the invariant and has no open current session |
| SessionRepository.ReplaceById | application/services/SessionService.ts:89-92 | for a session started in this process, the current record and its list entry are one object, so an update reaches every entry with the record's id; other entries and the length are unchanged |
| SessionRepository.AtMostOneOpen | application/services/SessionService.ts:63-68 | under the repository invariant, at most one listed session is open |
| SessionRepository.GetCurrentSession | application/services/SessionService.ts:109-111 | under the invariant, a current session is open and is in the list |
| SessionRepository.StartNewSession | application/services/SessionService.ts:62-74 | refused with "already active" exactly when an open current session exists; otherwise exactly one new open record is appended and becomes current, shared with its list entry, and earlier entries are unchanged |
| SessionRepository.StartKeepsValid | application/services/SessionService.ts:62-74 | starting with a fresh id preserves the invariant (unique ids, current open, listed and shared with its entry, every other entry complete) |
| SessionRepository.SecondStartRefused | application/services/SessionService.ts:63-65 | a second start without an end in between is refused, leaving exactly one new entry |
| SessionRepository.EndCurrentSession | application/services/SessionService.ts:76-107 | without an open current session nothing changes and nothing is returned; otherwise the current session takes the clicks, the rate verbatim, the smoothness and the end time, its list entry is updated alike only when the two are shared, current is cleared and the now-complete record is returned |
| SessionRepository.EndKeepsValid | application/services/SessionService.ts:87-95 | ending preserves the invariant, and afterwards every listed session is complete |
| SessionRepository.AddNote | application/services/SessionService.ts:119-132 | refused with "no active session" exactly when there is no current session; otherwise the note is appended to the current session, and to its list entry only when the two are shared |
| SessionRepository.AddNoteKeepsValid | application/services/SessionService.ts:119-125 | adding a note preserves the invariant and leaves every entry with another id unchanged |
| SessionRepository.Initialize | application/services/SessionService.ts:17-27 | the list and the current session are loaded as stored but decoded separately, so they share nothing, and a reloaded open session breaks the invariant |
| SessionRepository.ReloadThenEndLeavesOpenEntry | application/services/SessionService.ts:20-26 | as written: start, reload and end leave the list entry open, and a further start then gives two open entries |
| SessionRepository.InitializeSharing | application/services/SessionService.ts:17-27 | corrected: the loaded current session is shared with its list entry exactly when that entry is stored |
| SessionRepository.ReloadKeepsValid | application/services/SessionService.ts:17-27 | corrected: whatever a valid service persisted loads back valid |
| SessionRepository.ReloadThenEndClosesEntry | application/services/SessionService.ts:20-26 | corrected: start, reload and end close the list entry, and the next session is the only open one |
| SessionRepository.InsertByStartDesc | application/services/SessionService.ts:113-117 | inserting into a most-recent-first list keeps it sorted and adds exactly the new record |
| SessionRepository.SortByStartDesc | application/services/SessionService.ts:113-117 | the result is sorted most recent first and is a permutation of the input |
| SessionRepository.GetAllSessions | application/services/SessionService.ts:113-117 | every stored session, each as often as stored, in descending start-time order; the repository is not changed |
| Text.NatToString | utils/timeUtils.ts:24-25 | `String(n)` is all digits, one digit below 10, two below 100, at least three from 100 on, and starts with '0' only for 0 |
| Text.ValueOfNatToString | utils/timeUtils.ts:24-25 | reading `String(n)` back as a decimal gives n |
| Text.IntToStringReads | infrastructure/services/TimeServiceImpl.ts:27-29 | `String(i)`, as the unpadded hours or minutes field prints it: the text is never empty and starts with '-' exactly when i is negative; the digits after any sign read back as the magnitude of i |
| Text.PadStart | utils/timeUtils.ts:24-25 | `padStart` reaches the width (or keeps a longer string), ends with the original string and is preceded only by zeros |
| Text.ValueOfPadStart | utils/timeUtils.ts:24-25 | zero padding keeps a digit string's value |
| Text.Pad2Field | utils/timeUtils.ts:25 | a value below 100 pads to exactly two digits that read back as the value |
| Text.Pad2Wide | utils/timeUtils.ts:24 | any non-negative value pads to at least two digits that read back as the value; from 100 on it has three or more and no leading zero |
| TimeFormat.GetElapsedTime | infrastructure/services/TimeServiceImpl.ts:14-16 | the start time plus the result is `now` |
| TimeFormat.FormatTime | utils/timeUtils.ts:13-28 | a negative input gives "00:00" |
| TimeFormat.SplitBy60 | utils/timeUtils.ts:21-22 | minutes·60 + seconds is the total, with seconds in 0..59; 6000 seconds or more give at least 100 minutes |
| TimeFormat.FormatTimeReadsBack | utils/timeUtils.ts:19-27 | for a non-negative input the text reads back as minutes:seconds with a two-digit seconds field below 60, and minutes·60 + seconds = whole seconds of the input; below 100 minutes the text is exactly five characters (MM:SS), and from 100 minutes on it is longer and has no leading zero, so the text is fully determined |
| TimeFormat.MinutesSecondsTextReads | utils/timeUtils.ts:24-27 | padded minutes and seconds read back as the seconds they denote; five characters below 100 minutes, longer and without a leading zero from 100 on |
| TimeFormat.FormatTimeBySecond | utils/timeUtils.ts:19 | inputs within the same whole second format identically |
| TimeFormat.JsRemainder | infrastructure/services/TimeServiceImpl.ts:23-24 | JavaScript `%`: the result differs from the dividend by a multiple of the divisor and is smaller than the divisor in magnitude; it is the usual remainder in 0..divisor-1 for a non-negative dividend and lies in -divisor+1..0 for a negative one |
| TimeFormat.FormatDuration | infrastructure/services/TimeServiceImpl.ts:18-30 | for any duration the text has at least the four characters of M:SS |
| TimeFormat.SplitHours | infrastructure/services/TimeServiceImpl.ts:19-24 | hours·3600 + remaining minutes·60 + remaining seconds is the total, with both remainders in 0..59 |
| TimeFormat.HoursTextReads | infrastructure/services/TimeServiceImpl.ts:26-28 | the H:MM:SS text reads back as the seconds it denotes, and the unpadded hours field does not start with '0' |
| TimeFormat.HoursTextColons | infrastructure/services/TimeServiceImpl.ts:27 | the H:MM:SS text has exactly two colons |
| TimeFormat.MinutesTextReads | infrastructure/services/TimeServiceImpl.ts:29 | the M:SS text reads back as the seconds it denotes |
| TimeFormat.MinutesTextWidth | infrastructure/services/TimeServiceImpl.ts:29 | below an hour the M:SS text is 4 or 5 characters, and starts with '0' only for zero minutes, as a single unpadded digit |
| TimeFormat.OneColon | infrastructure/services/TimeServiceImpl.ts:29 | two digit fields joined by a colon contain exactly one colon |
| TimeFormat.TwoColons | infrastructure/services/TimeServiceImpl.ts:27 | a digit field, a colon and two colon-joined digit fields contain exactly two colons |
| TimeFormat.MinutesTextColons | infrastructure/services/TimeServiceImpl.ts:29 | the M:SS text has exactly one colon |
| TimeFormat.FormatDurationLong | infrastructure/services/TimeServiceImpl.ts:18-28 | from one hour on, the text is H:MM:SS reading back as the whole seconds of the duration, with an unpadded hours field and two colons |
| TimeFormat.FormatDurationShort | infrastructure/services/TimeServiceImpl.ts:18-30 | below one hour, the text is M:SS reading back as the whole seconds of the duration, with an unpadded minutes field and one colon |
| TimeFormat.FormatDurationHoursIff | infrastructure/services/TimeServiceImpl.ts:18-30 | for a non-negative duration, the text has two colons exactly when the duration is at least 3,600,000 ms |

## Left out

- React and React Native presentation, contexts, hooks, factories, the use-case delegation layers and the logging helpers. They hold no timing or scoring logic; the use cases only forward to the work session.
- `setInterval`/`clearInterval` scheduling. The interval handle is the timer's `active` flag, and each firing of the 16 ms interval is the `Tick` operation. The registered callback is an opaque handle, and a call to it is the snapshot an operation returns in `pushed`.
- The call stack. The unbounded mutual recursion between `getCurrentMetrics` and the timer's callback is the `StackOverflow` outcome, not a depth count. The state after it holds what was stored before the recursion. What the host does with the uncaught error (an error screen, a dropped interval callback) is not modelled.
- The clock inside the recursion. Each nested refresh reads `Date.now()` again; here one `now` serves the whole operation.
- Persistence (`persistSessions`, `persistCurrentSession` and the storage service). These are asynchronous I/O through a library that is not part of this model. `initialize` is modelled from the records its two storage keys hold, already decoded (`Sessions.ToJson` states the per-record round trip). Its guard against a second call is not modelled; the model loads into a fresh service once. Storage and parse failures, which `initialize` logs and rethrows, are not modelled either.
- `Math.sqrt` is a parameter, not a definition. IEEE-754 floating point, NaN (including the NaN branch of `formatTime`) and fractional milliseconds are not modelled: rates and scores are exact reals and times are integers.
- The getters (`getElapsedTimeMs` and `getClicks` on the entity, the record getters of `Session`) are field reads of the datatypes.
- The session service constructs `new Session()` without arguments and passes a `Date` to `setEndTime`. Here the id and the times are parameters.
- `Session.setFinalUPM` is called by the session service but not defined in `domain/entities/Session.ts`. It is modelled as storing the given rate verbatim.
- `WorkSession.updateSmoothnessMetrics`, `updateRewards`, `getSmoothnessMetrics` and `getRewards` are called by the orchestrator but not defined in `domain/entities/WorkSession.ts`. They are modelled as two stored fields with plain setters.
- `getAllSessions` calls `getStartTime().getTime()` on a number. It is modelled as the evidently meant numeric comparison of start times.
- RewardSystem.CalculateRewards: compares metrics by field equality, where the source compares their `JSON.stringify` text. The two agree for finite numbers.
- SessionRepository.GetAllSessions: does not state the order among sessions with equal start times (the stability of `Array.prototype.sort`).
- SessionRepository.StartKeepsValid: requires a fresh id, because the source's id generation is not visible.
- Smoothness.CalculateSmoothnessScore: its upper bound of 100 on consistency is stated in `Smoothness.ScoresBounded`, under the square-root assumption, not in its own contract.
- TimeFormat.FormatDuration: negative durations are left unconstrained. Only non-negative durations have stated properties.

## Findings

| source | as written | input that shows it | evidently intended | confidence | as-written member | corrected member |
|---|---|---|---|---|---|---|
| domain/entities/Session.ts:119 | when `finalUPM` is a number, `setProperties` calls the getter `getFinalUPM()` and discards its value, so `fromJSON` never restores the stored rate | a completed record with 3 clicks and `finalUPM` 150.0, serialised with `toJSON` and read back with `fromJSON`, has `finalUPM` 0 | assign `this.finalUPM = props.finalUPM`, so the round trip keeps the rate | high, not executed | Sessions.RoundTripDropsRate | Sessions.RoundTripStoringRate |
| application/services/SessionService.ts:26 | `initialize` decodes the current session separately from its list entry (line 20), so later updates to the current session no longer reach the list | start a session, reload, then `endCurrentSession` and `startNewSession`: the list holds the first session still open beside the new one | the reloaded current session is the list entry with its id, so ending it closes that entry | high, not executed | SessionRepository.ReloadThenEndLeavesOpenEntry | SessionRepository.ReloadThenEndClosesEntry |
| infrastructure/services/WorkTimerServiceImpl.ts:33 | the constructor's timer callback pushes `getCurrentMetrics()`, whose `getElapsedTimeMs` refreshes the timer, and the refresh calls the same callback again (infrastructure/TimerServiceImpl.ts:57, 77-79) | `onMetricsUpdate(cb)` followed by `startTimer()`: the read after the start recurses until the stack overflows, and `cb` is never called | a read refreshes the timer without calling back, so each interval firing or command notifies the subscriber once | high, not executed | WorkTimer.StartWithSubscriberOverflows | WorkTimer.StartWithSubscriberNotifiesOnce |
