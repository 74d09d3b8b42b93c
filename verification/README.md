# Workout manager of a handball referee's watch app, in Dafny

The watch app has one screen: a stopwatch label, a primary button that reads
"Start", "Pause" or "Weiter" ("continue"), a reset button, and two totals
(steps and active kilocalories) that the health service reports while a
workout session runs. All of its logic is in the `WorkoutManager` class. This
project models that class as an immutable `Manager` value with pure
transitions, plus its elapsed-time formatter, and proves properties about both:

- `decimal.dfy`, `clock_format.dfy`: `timeString`. Whole seconds are split into
  hours, minutes and seconds with Swift's truncating `/` and `%`, then printed
  with `%d`/`%02d` as `H:MM:SS` from one hour on, and as `MM:SS` below one hour.
- `clock_parse.dfy`: a reader for the labels. It proves that `timeString` is a
  bijection from non-negative totals onto the well-formed labels. It also
  proves the label examples 59 s, 60 s and 3661 s.
- `workout_manager.dfy`: the manager's fields and the transitions
  `toggleStartPause`, `start` (atomic, or split at its `await`), `pause`,
  `resume`, `endWorkout` (local part), `reset`, the timer closure and
  `updateStats`. The wall clock is a parameter `now` in whole seconds. The
  health service's outcomes are parameters as well.
- `stopwatch_properties.dfy`: properties of single transitions and of press
  sequences. These are the button routing, a repeated pause, reset, the tick,
  alternating pause/resume bookkeeping, and the "Weiter" gap inside `start`.
- `workout_trace.dfy`: whole runs of button presses, timer ticks and data
  notifications, starting from a fresh manager. It has the state invariant,
  and the main accounting theorem: `accumulated` plus the open interval equals
  the total time the manager was running since the last start or reset.
  `ActiveTime` measures that running time independently of `accumulated`. It
  also proves that the display never runs ahead of the active time, and that
  each total is the last sum reported since the last reset.

Behaviour the model keeps from the code:

- A failed start leaves `startDate` set to the start time (lines 85, 116-117).
- `reset` never clears the session or builder (lines 70-79). `updateStats` does
  nothing until a builder exists (line 180).
- An absent sum keeps the previous total instead of setting it to zero
  (lines 182-192).
- `pause` leaves the displayed `elapsed` at the last tick's value.
- `start` is not atomic. Lines 82-85 leave `isRunning` as it was. Between
  setting `hasStarted` (line 82) and `isRunning` (line 112), the button
  therefore reads "Weiter" when the manager was not running before the
  start, and a press in that gap resumes. If collection then fails, the
  button reads "Start" again, but the timer keeps counting
  (`PressInGapThenFailureKeepsCounting`). A reset in that gap followed by a
  successful collection leaves a workout that is running but not started
  (`StartGapBreaksConsistency`). The next start from that state keeps
  `isRunning`, so its gap reads "Pause"
  (`RunningStartGapShowsPause`).

## Model

| member | source | states |
|---|---|---|
| ClockFormat.Quot | WatchExtension/WorkoutManager.swift:30-31 | Swift integer division: for a >= 0 the quotient is the largest q with q*b <= a; for a < 0 it is the smallest q with a <= q*b, so it truncates toward zero |
| ClockFormat.Rem | WatchExtension/WorkoutManager.swift:29-30 | Swift remainder: quotient times divisor plus remainder is the dividend, and the remainder has the dividend's sign |
| ClockFormat.Split | WatchExtension/WorkoutManager.swift:28-31 | h*3600 + m*60 + s == total; for total >= 0 the fields satisfy 0 <= s < 60, 0 <= m < 60 and h >= 0; for negative totals all fields are non-positive |
| ClockFormat.SplitUnique | WatchExtension/WorkoutManager.swift:28-31 | for a non-negative total, the in-range fields that add up to it are exactly the fields the split computes |
| ClockFormat.FormatD | WatchExtension/WorkoutManager.swift:33 | `%d`: for n >= 0 a canonical digit string whose value is n; for n < 0 a minus sign followed by a canonical digit string whose value is -n |
| ClockFormat.Format02D | WatchExtension/WorkoutManager.swift:33-35 | `%02d`: at least two characters; for 0..99 exactly two digits denoting the number |
| ClockFormat.TimeString | WatchExtension/WorkoutManager.swift:27-37 | for total >= 0 the label has the five-character MM:SS form exactly when total < 3600; from one hour on it has the H:MM:SS form with colons in the last six characters |
| Decimal.NatDigits | WatchExtension/WorkoutManager.swift:33 | digits of a natural number, canonical (no leading zero), a single digit exactly below 10 |
| Decimal.ValueOfDigits | WatchExtension/WorkoutManager.swift:33 | reading back the printed digits gives the number |
| Decimal.DigitsOfValue | WatchExtension/WorkoutManager.swift:33 | every canonical digit string is the printing of its value |
| ClockParse.ParseOfTimeString | WatchExtension/WorkoutManager.swift:27-37 | every non-negative total is recovered from its label |
| ClockParse.TimeStringOfParse | WatchExtension/WorkoutManager.swift:27-37 | every well-formed label is the label of the total it denotes, so labels and totals correspond one to one |
| ClockFormat.ShortLabel | WatchExtension/WorkoutManager.swift:35 | below one hour the label is total/60 and total%60, each as `%02d`, joined by a colon |
| ClockFormat.LongLabel | WatchExtension/WorkoutManager.swift:33 | from one hour on the label is total/3600 as `%d`, then (total/60)%60 and total%60 as `%02d`, joined by colons |
| ClockFormat.PadDigit | WatchExtension/WorkoutManager.swift:35 | `%02d` of a single digit is '0' followed by that digit |
| ClockFormat.TwoDigits | WatchExtension/WorkoutManager.swift:35 | `%02d` of 10..99 is the tens digit followed by the units digit |
| ClockParse.UnderTenSeconds | WatchExtension/WorkoutManager.swift:35 | the first ten seconds show "00:0" followed by the digit |
| ClockParse.ExampleZero | WatchExtension/WorkoutManager.swift:35 | 0 seconds shows "00:00" |
| ClockParse.ExampleUnderAMinute | WatchExtension/WorkoutManager.swift:35 | 59 seconds shows "00:59" |
| ClockParse.ExampleOneMinute | WatchExtension/WorkoutManager.swift:35 | 60 seconds shows "01:00" |
| ClockParse.ExampleOverAnHour | WatchExtension/WorkoutManager.swift:33 | 3661 seconds shows "1:01:01" |
| WorkoutManager.PrimaryButtonTitle | WatchExtension/WorkoutManager.swift:22-25 | "Start" iff not started, "Pause" iff started and running, "Weiter" iff started and not running |
| WorkoutManager.OpenInterval | WatchExtension/WorkoutManager.swift:169 | the open interval is 0 without a start date, and otherwise reaches from the start date to now |
| WorkoutManager.BeginStart | WatchExtension/WorkoutManager.swift:81-100 | clock zeroed and start date set to now; if the session cannot be created the flags are cleared; otherwise session and builder exist and isRunning is unchanged, so false when the manager was not running before |
| WorkoutManager.CompleteStart | WatchExtension/WorkoutManager.swift:105-118 | collection begun: running and timer scheduled; collection failed: both flags cleared, start date and timer untouched |
| WorkoutManager.Start | WatchExtension/WorkoutManager.swift:81-119 | accumulated and elapsed end at 0 and the start date at now in every outcome; success ends started, running and ticking; failure ends with both flags false and the timer as before; the builder exists unless the session could not be created |
| WorkoutManager.Pause | WatchExtension/WorkoutManager.swift:121-127 | accumulated grows by the open interval (by nothing without a start date); start date cleared, not running, timer stopped, nothing else changes |
| WorkoutManager.Resume | WatchExtension/WorkoutManager.swift:129-134 | start date becomes now, running and ticking, accumulated and everything else unchanged |
| WorkoutManager.EndWorkout | WatchExtension/WorkoutManager.swift:136-143 | the local effect of ending the workout is exactly that of a pause |
| WorkoutManager.Reset | WatchExtension/WorkoutManager.swift:70-79 | from any state: not started, not running, no timer, no start date, accumulated, elapsed, steps and kcal all 0; session and builder kept |
| WorkoutManager.Toggle | WatchExtension/WorkoutManager.swift:62-68 | not started: start; started and running: pause; started and not running: resume |
| WorkoutManager.Tick | WatchExtension/WorkoutManager.swift:167-171 | elapsed becomes accumulated plus the open interval; nothing else changes |
| WorkoutManager.UpdateStats | WatchExtension/WorkoutManager.swift:179-193 | without a builder nothing changes; a present sum overwrites its total; an absent sum keeps it; nothing else changes |
| StopwatchProperties.TitleNamesToggleBranch | WatchExtension/WorkoutManager.swift:62-68 | the label is always one of the three, and names the branch a press takes |
| StopwatchProperties.PauseTwiceIsPauseOnce | WatchExtension/WorkoutManager.swift:121-127 | a second consecutive pause changes nothing, accumulated included |
| StopwatchProperties.ResetForgetsHistory | WatchExtension/WorkoutManager.swift:70-79 | reset is idempotent and its result depends only on whether the handles exist |
| StopwatchProperties.ResetWithoutHandlesIsFresh | WatchExtension/WorkoutManager.swift:70-79 | reset gives exactly the freshly constructed manager iff no session and builder were ever created |
| StopwatchProperties.TickNonDecreasing | WatchExtension/WorkoutManager.swift:169-170 | while a start date is set, the tick's reading grows exactly as the clock does |
| StopwatchProperties.PressesAccumulateIntervals | WatchExtension/WorkoutManager.swift:121-133 | from a paused workout, alternating resume/pause presses add exactly the closed running intervals to accumulated, and an odd press count leaves the last interval open |
| StopwatchProperties.TickAfterPresses | WatchExtension/WorkoutManager.swift:169-170 | after such presses a tick shows the closed intervals plus the open one |
| StopwatchProperties.StartGapShowsWeiter | WatchExtension/WorkoutManager.swift:81-112 | when the manager was not running before the start, between the two halves of start the button reads "Weiter" and a press resumes |
| StopwatchProperties.RunningStartGapShowsPause | WatchExtension/WorkoutManager.swift:82-85 | when the manager was running before the start, the gap reads "Pause" and a press pauses, because lines 82-85 leave isRunning as it was |
| StopwatchProperties.PressInGapThenFailureKeepsCounting | WatchExtension/WorkoutManager.swift:112-118 | a press in that gap followed by failed collection leaves the label "Start" with the timer still counting from the press |
| WorkoutManager.Initial | WatchExtension/WorkoutManager.swift:7-20 | a new manager is not started, not running, has no handles, no timer and no start date, and all counts and totals are 0 |
| WorkoutTrace.Step | WatchExtension/WorkoutManager.swift:165-213 | a press toggles, a reset press resets, a timer event changes nothing unless the timer is scheduled and then sets elapsed to accumulated plus the open interval, and a data notification runs updateStats and touches only the totals |
| WorkoutTrace.Run | WatchExtension/WorkoutManager.swift:62-134 | every state reached when each start completes before the next event is consistent: not started means not running and no timer; started means handles exist, a start date exactly while running, a timer exactly while running |
| WorkoutTrace.StartGapBreaksConsistency | WatchExtension/WorkoutManager.swift:70-118 | inside the gap of a non-atomic start consistency fails: resume-then-failed-collection leaves a timer on an unstarted workout; reset-then-successful-collection leaves an unstarted workout running with no start date |
| WorkoutTrace.TotalsAreLastReported | WatchExtension/WorkoutManager.swift:179-193 | each displayed total is the last sum reported while a builder existed since the last reset, or 0 |
| WorkoutTrace.AccumulatedIsActiveTime | WatchExtension/WorkoutManager.swift:121-133 | accumulated plus the open interval equals the time spent running since the last start or reset, measured independently over the event gaps |
| WorkoutTrace.TickShowsActiveTime | WatchExtension/WorkoutManager.swift:165-171 | a tick while running displays exactly that active time |
| WorkoutTrace.DisplayNeverAhead | WatchExtension/WorkoutManager.swift:121-171 | with a clock that never goes back: start date not in the future, accumulated >= 0, and 0 <= elapsed <= active time |
| WorkoutTrace.DisplayedLabelIsWellFormed | WatchExtension/WorkoutManager.swift:27-37 | with such a clock the face always shows a well-formed label that reads back as the displayed seconds |
| WorkoutTrace.ResetShowsZero | WatchExtension/WorkoutManager.swift:70-79 | after a reset the button reads "Start" and the face "00:00" |

## Left out

- HealthKit authorization (`requestAuthorizationIfNeeded`, lines 39-60) has no effect on the modelled state. It is left out.
- Session and builder creation, `startActivity`, `session?.pause()`, `session?.resume()`, `session?.end()`, `endCollection` and `finishWorkout` are calls into HealthKit, whose behaviour is not visible here. The start calls reduce to a `StartOutcome` input. The others are left out, and their errors are only logged.
- The delegate callbacks (lines 196-216) are left out, except the data-collected notification. That notification is the `DataCollected` event feeding `UpdateStats`, with the builder's sums as `Option<real>` inputs.
- `Task`, `await`, and main-actor hops are not modelled. Runs are sequential. In `WorkoutTrace` a press that starts a workout completes before the next event. The gap inside `start` is modelled only by `BeginStart`/`CompleteStart` and the lemmas about them. A second start task queued before the first one runs is not modelled.
- WorkoutTrace.Run: its consistency guarantee covers only runs in which each start completes before the next event. States inside the gap of `start` are not covered, and `StartGapBreaksConsistency` proves that two of them are inconsistent.
- Timer scheduling and the 0.2 s interval are not modelled. Ticks are events at arbitrary times, delivered only while the timer is scheduled.
- Time is whole seconds (`nat`); `Double`, `TimeInterval` and sub-second readings are not modelled. The steps and kcal totals are `real`.
- TimeString: takes whole seconds. The `rounded(.down)` of a `Double` at line 28 is therefore the identity, and the overflow of `Int(...)` for huge values is not modelled.
- `print` logging and all of `ContentView.swift` are not modelled. They are layout, haptics and `Int(...)` casts for display.
