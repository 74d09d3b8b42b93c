/** Properties of single transitions and short button sequences of the
    workout manager. */
module StopwatchProperties {
  import opened Wrappers
  import opened WorkoutManager

  /** The button label names the branch `toggleStartPause` takes. */
  lemma TitleNamesToggleBranch(m: Manager, now: nat, outcome: StartOutcome)
    ensures PrimaryButtonTitle(m) == "Start" ==> Toggle(m, now, outcome) == Start(m, now, outcome)
    ensures PrimaryButtonTitle(m) == "Pause" ==> Toggle(m, now, outcome) == Pause(m, now)
    ensures PrimaryButtonTitle(m) == "Weiter" ==> Toggle(m, now, outcome) == Resume(m, now)
    ensures PrimaryButtonTitle(m) in {"Start", "Pause", "Weiter"}
  {
  }

  /** A second pause, at any later or earlier time, changes nothing: the
      first one already cleared the start date. */
  lemma PauseTwiceIsPauseOnce(m: Manager, first: nat, second: nat)
    ensures Pause(Pause(m, first), second) == Pause(m, first)
  {
  }

  /** Reset forgets everything but the session and builder handles, so it is
      idempotent and its result depends only on whether they exist. */
  lemma ResetForgetsHistory(m: Manager, m': Manager, now: nat, now': nat)
    ensures Reset(Reset(m, now), now') == Reset(m, now)
    ensures m.hasBuilder == m'.hasBuilder ==> Reset(m, now) == Reset(m', now')
  {
  }

  /** Reset returns a manager without handles to the freshly constructed
      state, and no manager that holds them. */
  lemma ResetWithoutHandlesIsFresh(m: Manager, now: nat)
    ensures Reset(m, now) == Initial() <==> !m.hasBuilder
  {
  }

  /** While a start date is set, the tick's reading grows with the clock. */
  lemma TickNonDecreasing(m: Manager, earlier: nat, later: nat)
    requires m.startDate.Some? && earlier <= later
    ensures Tick(m, earlier).elapsed <= Tick(m, later).elapsed
    ensures Tick(m, later).elapsed - Tick(m, earlier).elapsed == later - earlier
  {
  }

  /** The sum of the intervals `[ts[0], ts[1]]`, `[ts[2], ts[3]]`, ...; a
      final unpaired reading opens an interval that is not counted. */
  function ClosedIntervals(ts: seq<nat>): int
    decreases |ts|
  {
    if |ts| < 2 then 0 else (ts[1] - ts[0]) + ClosedIntervals(ts[2..])
  }

  /** Pressing the primary button at each time in `ts`, in order. */
  function PressAt(m: Manager, ts: seq<nat>): Manager
    decreases |ts|
  {
    if |ts| == 0 then m else PressAt(Toggle(m, ts[0], Started), ts[1..])
  }

  /** From a paused workout, presses alternate resume and pause: afterwards
      `accumulated` has grown by exactly the closed running intervals, and a
      last unpaired press leaves an interval open since its time. */
  lemma {:induction false} PressesAccumulateIntervals(m: Manager, ts: seq<nat>)
    requires m.hasStarted && !m.isRunning && m.startDate.None?
    ensures PressAt(m, ts).accumulated == m.accumulated + ClosedIntervals(ts)
    ensures PressAt(m, ts).hasStarted
    ensures |ts| % 2 == 0 ==> !PressAt(m, ts).isRunning && PressAt(m, ts).startDate.None?
    ensures |ts| % 2 == 1 ==> PressAt(m, ts).isRunning && PressAt(m, ts).startDate == Some(ts[|ts| - 1])
    decreases |ts|
  {
    if |ts| >= 2 {
      var resumed := Toggle(m, ts[0], Started);
      var paused := Toggle(resumed, ts[1], Started);
      assert ts[1..][0] == ts[1] && ts[1..][1..] == ts[2..];
      assert PressAt(m, ts) == PressAt(paused, ts[2..]);
      PressesAccumulateIntervals(paused, ts[2..]);
      if |ts| % 2 == 1 {
        assert ts[2..][|ts[2..]| - 1] == ts[|ts| - 1];
      }
    }
  }

  /** What a tick shows after alternating presses: the closed intervals plus
      the interval still open, if the last press resumed. */
  lemma TickAfterPresses(m: Manager, ts: seq<nat>, now: nat)
    requires m.hasStarted && !m.isRunning && m.startDate.None?
    ensures |ts| % 2 == 0 ==> Tick(PressAt(m, ts), now).elapsed == m.accumulated + ClosedIntervals(ts)
    ensures |ts| % 2 == 1 ==>
      Tick(PressAt(m, ts), now).elapsed == m.accumulated + ClosedIntervals(ts) + (now - ts[|ts| - 1])
  {
    PressesAccumulateIntervals(m, ts);
  }

  /** Between the two halves of a successful `start` the button reads
      "Weiter", and pressing it then takes the `resume` branch. */
  lemma StartGapShowsWeiter(m: Manager, now: nat, later: nat, outcome: StartOutcome)
    requires !m.isRunning
    ensures PrimaryButtonTitle(BeginStart(m, now, true)) == "Weiter"
    ensures Toggle(BeginStart(m, now, true), later, outcome) == Resume(BeginStart(m, now, true), later)
  {
  }

  /** `BeginStart` leaves `isRunning` alone, so from a running manager the
      gap reads "Pause" and a press pauses. */
  lemma RunningStartGapShowsPause(m: Manager, now: nat, later: nat, outcome: StartOutcome)
    requires m.isRunning
    ensures PrimaryButtonTitle(BeginStart(m, now, true)) == "Pause"
    ensures Toggle(BeginStart(m, now, true), later, outcome) == Pause(BeginStart(m, now, true), later)
  {
  }

  /** A press during that gap followed by a failed collection start leaves
      the button at "Start" while the timer keeps counting from the press. */
  lemma PressInGapThenFailureKeepsCounting(m: Manager, begun: nat, pressed: nat, now: nat)
    requires !m.isRunning
    ensures var r := CompleteStart(Toggle(BeginStart(m, begun, true), pressed, Started), false);
      && PrimaryButtonTitle(r) == "Start"
      && r.ticking
      && Tick(r, now).elapsed == now - pressed
  {
  }
}
