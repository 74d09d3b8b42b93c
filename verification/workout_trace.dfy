/** Whole runs of the workout manager: the user's presses, the timer's ticks
    and the health service's data notifications, applied one after another
    from a fresh manager. A press that starts a workout is taken to complete
    before the next event arrives. */
module WorkoutTrace {
  import opened Wrappers
  import opened WorkoutManager
  import opened ClockFormat
  import opened ClockParse

  /** One input to the manager, with the wall-clock second at which it happens. */
  datatype Event =
    | PrimaryPressed(at: nat, outcome: StartOutcome)
    | ResetPressed(at: nat)
    | TimerFired(at: nat)
    | DataCollected(at: nat, stepSum: Option<real>, energySum: Option<real>)

  /** The effect of one event. A press goes to `toggleStartPause` and a
      reset press to `reset`. The timer's closure runs only while the timer
      is scheduled. A data notification runs `updateStats`, which touches
      the two totals only. */
  function Step(m: Manager, e: Event): (r: Manager)
    ensures e.PrimaryPressed? ==> r == Toggle(m, e.at, e.outcome)
    ensures e.ResetPressed? ==> r == Reset(m, e.at)
    ensures e.TimerFired? && !m.ticking ==> r == m
    ensures e.TimerFired? && m.ticking ==>
      r.elapsed == m.accumulated + OpenInterval(m.startDate, e.at) && r == m.(elapsed := r.elapsed)
    ensures e.DataCollected? ==> r == UpdateStats(m, e.stepSum, e.energySum)
    ensures e.DataCollected? ==> r == m.(steps := r.steps, activeEnergyKcal := r.activeEnergyKcal)
  {
    match e
    case PrimaryPressed(at, outcome) => Toggle(m, at, outcome)
    case ResetPressed(at) => Reset(m, at)
    case TimerFired(at) => if m.ticking then Tick(m, at) else m
    case DataCollected(_, stepSum, energySum) => UpdateStats(m, stepSum, energySum)
  }

  /** The flags agree with each other in every state reached when each
      start completes before the next event: a workout that has not started
      is neither running nor timed; one that has started has its session and
      builder, a start date exactly while running, and a scheduled timer
      exactly while running. `StartGapBreaksConsistency` shows two states
      inside the gap of a start that do not agree. */
  predicate Consistent(m: Manager) {
    && (!m.hasStarted ==> !m.isRunning && !m.ticking)
    && (m.hasStarted ==> m.hasBuilder)
    && (m.hasStarted ==> (m.startDate.Some? <==> m.isRunning))
    && (m.hasStarted ==> (m.ticking <==> m.isRunning))
  }

  /** The manager after `trace`, starting from a fresh one. */
  function Run(trace: seq<Event>): (m: Manager)
    ensures Consistent(m)
    decreases |trace|
  {
    if |trace| == 0 then Initial()
    else Step(Run(trace[..|trace| - 1]), trace[|trace| - 1])
  }

  /** The part of the running time not yet folded into `accumulated`. */
  function Live(m: Manager, now: nat): int
  {
    if m.isRunning then OpenInterval(m.startDate, now) else 0
  }

  /** Whether an event begins the count afresh: a reset, or a press that
      starts a workout. */
  predicate Restarts(m: Manager, e: Event) {
    e.ResetPressed? || (e.PrimaryPressed? && !m.hasStarted)
  }

  /** The reference measure of active time at `now`: the total length of the
      gaps between consecutive events (and from the last event to `now`)
      during which the manager was running, counted from the last restart. */
  function ActiveTime(trace: seq<Event>, now: nat): int
    decreases |trace|
  {
    if |trace| == 0 then 0
    else
      var before := trace[..|trace| - 1];
      var e := trace[|trace| - 1];
      var live := if Run(trace).isRunning then now - e.at else 0;
      if Restarts(Run(before), e) then live else ActiveTime(before, e.at) + live
  }

  /** The pause/resume bookkeeping is exact: `accumulated` is the running
      time of the completed intervals, and adding the open interval gives
      the active time at any moment. */
  lemma {:induction false} AccumulatedIsActiveTime(trace: seq<Event>, now: nat)
    ensures Run(trace).accumulated + Live(Run(trace), now) == ActiveTime(trace, now)
    decreases |trace|
  {
    if |trace| > 0 {
      var before := trace[..|trace| - 1];
      var e := trace[|trace| - 1];
      AccumulatedIsActiveTime(before, e.at);
    }
  }

  /** A tick while running displays exactly the active time at that tick. */
  lemma TickShowsActiveTime(trace: seq<Event>, at: nat)
    requires Run(trace).isRunning
    ensures Run(trace + [TimerFired(at)]).elapsed == ActiveTime(trace + [TimerFired(at)], at)
  {
    var t := trace + [TimerFired(at)];
    assert t[..|t| - 1] == trace;
    AccumulatedIsActiveTime(t, at);
  }

  /** The event times never go backwards. */
  predicate WellTimed(trace: seq<Event>) {
    forall i, j :: 0 <= i < j < |trace| ==> trace[i].at <= trace[j].at
  }

  /** The time of the last event, or 0 before any. */
  function LastTime(trace: seq<Event>): nat {
    if |trace| == 0 then 0 else trace[|trace| - 1].at
  }

  /** With a clock that never goes backwards, the start date is never in
      the future, no count is negative, and the display lags behind the
      active time but never runs ahead of it. */
  lemma {:induction false} DisplayNeverAhead(trace: seq<Event>, now: nat)
    requires WellTimed(trace) && LastTime(trace) <= now
    ensures Run(trace).startDate.Some? ==> Run(trace).startDate.value <= now
    ensures 0 <= Run(trace).accumulated
    ensures 0 <= Run(trace).elapsed <= ActiveTime(trace, now)
    decreases |trace|
  {
    AccumulatedIsActiveTime(trace, now);
    if |trace| > 0 {
      var before := trace[..|trace| - 1];
      var e := trace[|trace| - 1];
      assert WellTimed(before);
      assert LastTime(before) <= e.at by {
        if |before| > 0 {
          assert before[|before| - 1] == trace[|trace| - 2];
        }
      }
      DisplayNeverAhead(before, e.at);
      AccumulatedIsActiveTime(before, e.at);
    }
  }

  /** With a clock that never goes backwards, the watch face always shows a
      well-formed label, read back as the displayed number of seconds. */
  lemma DisplayedLabelIsWellFormed(trace: seq<Event>)
    requires WellTimed(trace)
    ensures Run(trace).elapsed >= 0
    ensures ParseTime(TimeString(Run(trace).elapsed)) == Some(Run(trace).elapsed as nat)
  {
    DisplayNeverAhead(trace, LastTime(trace));
    ParseOfTimeString(Run(trace).elapsed);
  }

  /** After a reset the button offers "Start" and the face shows "00:00",
      whatever happened before. */
  lemma ResetShowsZero(trace: seq<Event>, at: nat)
    ensures PrimaryButtonTitle(Run(trace + [ResetPressed(at)])) == "Start"
    ensures TimeString(Run(trace + [ResetPressed(at)]).elapsed) == "00:00"
  {
    var t := trace + [ResetPressed(at)];
    assert t[..|t| - 1] == trace;
    assert Run(t).elapsed == 0;
    ExampleZero();
  }

  /** Inside the gap of a non-atomic start the flags can disagree: a press
      that resumes during the gap followed by a failed collection leaves a
      scheduled timer on a workout that has not started, and a reset during
      the gap followed by a successful collection leaves a running workout
      that has not started and has no start date. */
  lemma StartGapBreaksConsistency(m: Manager, begun: nat, pressed: nat)
    requires Consistent(m) && !m.hasStarted
    ensures var r := CompleteStart(Toggle(BeginStart(m, begun, true), pressed, Started), false);
      !Consistent(r) && !r.hasStarted && r.ticking
    ensures var r := CompleteStart(Reset(BeginStart(m, begun, true), pressed), true);
      !Consistent(r) && !r.hasStarted && r.isRunning && r.startDate.None?
  {
  }

  /** Which of the two totals a data notification reports. */
  datatype Total = Steps | ActiveEnergy

  function ReportedSum(e: Event, kind: Total): Option<real>
    requires e.DataCollected?
  {
    match kind
    case Steps => e.stepSum
    case ActiveEnergy => e.energySum
  }

  function Shown(m: Manager, kind: Total): real {
    match kind
    case Steps => m.steps
    case ActiveEnergy => m.activeEnergyKcal
  }

  /** The reference value of a total: the last sum reported while a builder
      existed, since the last reset, or 0 if there is none. */
  function LastReported(trace: seq<Event>, kind: Total): real
    decreases |trace|
  {
    if |trace| == 0 then 0.0
    else
      var before := trace[..|trace| - 1];
      var e := trace[|trace| - 1];
      if e.ResetPressed? then 0.0
      else if e.DataCollected? && Run(before).hasBuilder && ReportedSum(e, kind).Some? then
        ReportedSum(e, kind).value
      else
        LastReported(before, kind)
  }

  /** Each displayed total is the last sum reported for it since the last
      reset: starting, pausing, resuming and ticking never change it, and an
      absent sum or a missing builder keeps the previous value. */
  lemma {:induction false} TotalsAreLastReported(trace: seq<Event>, kind: Total)
    ensures Shown(Run(trace), kind) == LastReported(trace, kind)
    decreases |trace|
  {
    if |trace| > 0 {
      TotalsAreLastReported(trace[..|trace| - 1], kind);
    }
  }
}
