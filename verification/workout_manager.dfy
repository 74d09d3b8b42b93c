/** The stopwatch and session state of the watch app's workout manager, as
    immutable values and pure transitions. Wall-clock readings (`Date()`) are
    the parameter `now`, in whole seconds; the outcomes of the health service's
    asynchronous calls are parameters too. */
module WorkoutManager {
  import opened Wrappers

  /** The manager's fields. `hasBuilder` records that the workout session and
      its live builder have been created: the two are assigned together and
      never cleared. `ticking` records that the repeating UI timer is
      scheduled. `accumulated` and `elapsed` are whole seconds; they are
      integers because the wall clock may be set back between two readings. */
  datatype Manager = Manager(
    isRunning: bool,
    hasStarted: bool,
    steps: real,
    activeEnergyKcal: real,
    elapsed: int,
    hasBuilder: bool,
    ticking: bool,
    startDate: Option<nat>,
    accumulated: int)

  /** A freshly constructed manager: nothing started, running or scheduled,
      no handles, no start date, and every count and total zero. */
  function Initial(): (m: Manager)
    ensures !m.isRunning && !m.hasStarted && !m.hasBuilder && !m.ticking && m.startDate.None?
    ensures m.steps == 0.0 && m.activeEnergyKcal == 0.0 && m.elapsed == 0 && m.accumulated == 0
  {
    Manager(false, false, 0.0, 0.0, 0, false, false, None, 0)
  }

  /** How a start attempt ends: the session cannot be created (nothing is
      assigned), data collection cannot begin (session and builder already
      assigned), or the workout runs. */
  datatype StartOutcome = SessionFailed | CollectionFailed | Started

  /** The label of the primary button. */
  function PrimaryButtonTitle(m: Manager): (r: string)
    ensures r == "Start" <==> !m.hasStarted
    ensures r == "Pause" <==> m.hasStarted && m.isRunning
    ensures r == "Weiter" <==> m.hasStarted && !m.isRunning
  {
    if !m.hasStarted then "Start" else if m.isRunning then "Pause" else "Weiter"
  }

  /** The running interval still open at `now`, or 0 when none is open. */
  function OpenInterval(startDate: Option<nat>, now: nat): (d: int)
    ensures startDate.None? ==> d == 0
    ensures startDate.Some? ==> d + startDate.value == now
  {
    match startDate
    case None => 0
    case Some(s) => now - s
  }

  /** The first, synchronous part of `start`: the clock is zeroed and the
      start date recorded before anything else happens, and the session is
      created. If creating it throws, the attempt fails at once; otherwise the
      session and builder are stored and the manager waits for data
      collection to begin, with `isRunning` left as it was: false unless a reset
      during an earlier start's wait was followed by that start's success. */
  function BeginStart(m: Manager, now: nat, sessionCreated: bool): (r: Manager)
    ensures r.accumulated == 0 && r.elapsed == 0 && r.startDate == Some(now)
    ensures r.hasStarted == sessionCreated
    ensures r.isRunning == (m.isRunning && sessionCreated)
    ensures r.hasBuilder == (m.hasBuilder || sessionCreated)
    ensures r.ticking == m.ticking
    ensures r.steps == m.steps && r.activeEnergyKcal == m.activeEnergyKcal
  {
    var begun := m.(hasStarted := true, accumulated := 0, elapsed := 0, startDate := Some(now));
    if sessionCreated then begun.(hasBuilder := true)
    else begun.(hasStarted := false, isRunning := false)
  }

  /** The second part of `start`, when data collection has begun or failed.
      Success sets `isRunning` and schedules the timer; failure clears the
      two flags but leaves the start date and the timer as they are. */
  function CompleteStart(m: Manager, collecting: bool): (r: Manager)
    ensures collecting ==> r == m.(isRunning := true, ticking := true)
    ensures !collecting ==> r == m.(hasStarted := false, isRunning := false)
  {
    if collecting then m.(isRunning := true, ticking := true)
    else m.(hasStarted := false, isRunning := false)
  }

  /** `start` when nothing else happens while it awaits the health service. */
  function Start(m: Manager, now: nat, outcome: StartOutcome): (r: Manager)
    ensures r.accumulated == 0 && r.elapsed == 0
    ensures r.startDate == Some(now)
    ensures outcome == Started ==> r.hasStarted && r.isRunning && r.ticking
    ensures outcome != Started ==> !r.hasStarted && !r.isRunning && r.ticking == m.ticking
    ensures r.hasBuilder == (m.hasBuilder || outcome != SessionFailed)
    ensures r.steps == m.steps && r.activeEnergyKcal == m.activeEnergyKcal
  {
    match outcome
    case SessionFailed => BeginStart(m, now, false)
    case CollectionFailed => CompleteStart(BeginStart(m, now, true), false)
    case Started => CompleteStart(BeginStart(m, now, true), true)
  }

  /** `pause`: the open running interval, if any, is added to `accumulated`;
      the start date is cleared and the timer stopped. The displayed
      `elapsed` keeps the value of the last tick. */
  function Pause(m: Manager, now: nat): (r: Manager)
    ensures r.accumulated == m.accumulated + OpenInterval(m.startDate, now)
    ensures r.startDate.None? && !r.isRunning && !r.ticking
    ensures r == m.(accumulated := r.accumulated, startDate := None, isRunning := false, ticking := false)
  {
    m.(ticking := false,
       accumulated := m.accumulated + OpenInterval(m.startDate, now),
       startDate := None,
       isRunning := false)
  }

  /** `resume`: a new running interval opens at `now`; `accumulated` is kept. */
  function Resume(m: Manager, now: nat): (r: Manager)
    ensures r.startDate == Some(now) && r.isRunning && r.ticking
    ensures r.accumulated == m.accumulated
    ensures r == m.(startDate := r.startDate, isRunning := true, ticking := true)
  {
    m.(startDate := Some(now), isRunning := true, ticking := true)
  }

  /** The local part of `endWorkout`: the timer stops and the open interval
      is folded into `accumulated`. Ending collection and saving the workout
      happen asynchronously in the health service and change nothing here.
      The source repeats `pause`'s local steps here rather than calling it;
      the model keeps the two apart in the same way, and the ensures ties
      this one to `Pause`. */
  function EndWorkout(m: Manager, now: nat): (r: Manager)
    ensures r == Pause(m, now)
  {
    m.(ticking := false,
       accumulated := m.accumulated + OpenInterval(m.startDate, now),
       startDate := None,
       isRunning := false)
  }

  /** `reset`: end the workout, then zero the clock and the totals. The
      session and builder stay assigned. */
  function Reset(m: Manager, now: nat): (r: Manager)
    ensures !r.hasStarted && !r.isRunning && !r.ticking && r.startDate.None?
    ensures r.accumulated == 0 && r.elapsed == 0
    ensures r.steps == 0.0 && r.activeEnergyKcal == 0.0
    ensures r.hasBuilder == m.hasBuilder
  {
    EndWorkout(m, now).(steps := 0.0, activeEnergyKcal := 0.0, elapsed := 0, accumulated := 0,
                        startDate := None, hasStarted := false, isRunning := false)
  }

  /** `toggleStartPause`: start when not started, otherwise pause when
      running and resume when not. */
  function Toggle(m: Manager, now: nat, outcome: StartOutcome): (r: Manager)
    ensures !m.hasStarted ==> r == Start(m, now, outcome)
    ensures m.hasStarted && m.isRunning ==> r == Pause(m, now)
    ensures m.hasStarted && !m.isRunning ==> r == Resume(m, now)
  {
    if !m.hasStarted then Start(m, now, outcome)
    else if m.isRunning then Pause(m, now)
    else Resume(m, now)
  }

  /** The body of the repeating timer: the displayed time becomes the
      accumulated time plus the interval open since the start date. */
  function Tick(m: Manager, now: nat): (r: Manager)
    ensures r.elapsed == m.accumulated + OpenInterval(m.startDate, now)
    ensures r == m.(elapsed := r.elapsed)
  {
    m.(elapsed := m.accumulated + OpenInterval(m.startDate, now))
  }

  /** `updateStats`, with the builder's cumulative sums as inputs: nothing
      happens without a builder; otherwise each total is replaced by its sum
      when the sum is present and kept when it is absent. */
  function UpdateStats(m: Manager, stepSum: Option<real>, energySum: Option<real>): (r: Manager)
    ensures !m.hasBuilder ==> r == m
    ensures m.hasBuilder && stepSum.Some? ==> r.steps == stepSum.value
    ensures m.hasBuilder && energySum.Some? ==> r.activeEnergyKcal == energySum.value
    ensures stepSum.None? ==> r.steps == m.steps
    ensures energySum.None? ==> r.activeEnergyKcal == m.activeEnergyKcal
    ensures r == m.(steps := r.steps, activeEnergyKcal := r.activeEnergyKcal)
  {
    if !m.hasBuilder then m
    else
      var withSteps := if stepSum.Some? then m.(steps := stepSum.value) else m;
      if energySum.Some? then withSteps.(activeEnergyKcal := energySum.value) else withSteps
  }
}
