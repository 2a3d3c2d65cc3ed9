/**
 * The obstacle-sensor debouncer of `sensors.js` (`setupObstacleSensor`): an active-low
 * infrared sensor reports a level on every change; a HIGH-to-LOW edge arms a short
 * confirmation timer, whose firing re-reads the pin; a LOW re-read confirms the
 * obstacle once, stopping the motors, calling the obstacle callback and broadcasting
 * `obstacle`. A LOW-to-HIGH edge ends the episode, cancelling the pending timer.
 * Timers and pin reads are explicit events here.
 */
module ObstacleSensor {
  import opened Wrappers

  const LOW_CONFIRM_MS: nat := 5

  type TimerId = nat

  /** The outcome of `sensor.read`. */
  datatype ReadResult = ReadError | ReadLevel(level: int)

  /** What a confirmed obstacle does, in order. */
  datatype Action = StopMotors | ObstacleCallback(position: string) | EmitObstacle(position: string)

  /**
   * The report of one confirmed obstacle: each of the three hooks acts only if it was
   * supplied at start-up.
   */
  function ReportActions(position: string, hasMotor: bool, hasCallback: bool, hasIo: bool): (r: seq<Action>)
    ensures StopMotors in r <==> hasMotor
    ensures ObstacleCallback(position) in r <==> hasCallback
    ensures EmitObstacle(position) in r <==> hasIo
    ensures |r| <= 3
  {
    (if hasMotor then [StopMotors] else [])
    + (if hasCallback then [ObstacleCallback(position)] else [])
    + (if hasIo then [EmitObstacle(position)] else [])
  }

  class Sensor {
    const position: string
    const hasMotor: bool
    const hasCallback: bool
    const hasIo: bool
    var lastLevel: int
    var confirmTimer: Option<TimerId>
    var confirmed: bool
    /** Timers scheduled and neither fired nor cancelled. */
    var armed: set<TimerId>
    var nextTimer: TimerId
    /** Pin reads started by fired timers whose callbacks have not run yet. */
    var pendingReads: nat
    var actions: seq<Action>

    /** Timer identities are allocated in order, so a new timer is never already armed. */
    ghost predicate Valid()
      reads this
    {
      && (confirmTimer.Some? ==> confirmTimer.value < nextTimer)
      && (forall t | t in armed :: t < nextTimer)
    }

    /** `setupObstacleSensor`: the line is assumed HIGH and nothing is confirmed. */
    constructor (position: string, hasMotor: bool, hasCallback: bool, hasIo: bool)
      ensures Valid()
      ensures this.position == position && this.hasMotor == hasMotor
      ensures this.hasCallback == hasCallback && this.hasIo == hasIo
      ensures lastLevel == 1 && confirmTimer == None && !confirmed
      ensures armed == {} && pendingReads == 0 && actions == []
    {
      this.position, this.hasMotor, this.hasCallback, this.hasIo := position, hasMotor, hasCallback, hasIo;
      lastLevel, confirmTimer, confirmed := 1, None, false;
      armed, nextTimer, pendingReads, actions := {}, 0, 0, [];
    }

    /**
     * A level notification. Only a HIGH-to-LOW edge arms a new confirmation timer;
     * only a LOW-to-HIGH edge clears `confirmed` and cancels the pending timer; any
     * other notification only records the level.
     */
    method Notify(level: int)
      requires Valid()
      modifies this`lastLevel, this`confirmTimer, this`confirmed, this`armed, this`nextTimer
      ensures Valid()
      ensures lastLevel == level
      ensures old(lastLevel) == 1 && level == 0 ==>
        && confirmTimer.Some? && confirmTimer.value !in old(armed)
        && armed == old(armed) + {confirmTimer.value}
        && confirmed == old(confirmed)
      ensures old(lastLevel) == 0 && level == 1 ==>
        && !confirmed && confirmTimer == None
        && armed == old(armed) - (if old(confirmTimer).Some? then {old(confirmTimer).value} else {})
      ensures !(old(lastLevel) == 1 && level == 0) && !(old(lastLevel) == 0 && level == 1) ==>
        && confirmTimer == old(confirmTimer) && confirmed == old(confirmed) && armed == old(armed)
    {
      if lastLevel == 1 && level == 0 {
        var t := nextTimer;
        nextTimer := nextTimer + 1;
        armed := armed + {t};
        confirmTimer := Some(t);
      }
      if lastLevel == 0 && level == 1 {
        confirmed := false;
        if confirmTimer.Some? {
          armed := armed - {confirmTimer.value};
          confirmTimer := None;
        }
      }
      lastLevel := level;
    }

    /** An armed timer fires: it is no longer armed, and its pin read starts. */
    method TimerFires(t: TimerId)
      requires Valid() && t in armed
      modifies this`armed, this`pendingReads
      ensures Valid()
      ensures armed == old(armed) - {t} && pendingReads == old(pendingReads) + 1
    {
      armed := armed - {t};
      pendingReads := pendingReads + 1;
    }

    /**
     * A pin read completes. An error changes nothing; a LOW level confirms an obstacle
     * that is not yet confirmed and reports it; anything else changes nothing.
     */
    method ReadDone(r: ReadResult)
      requires Valid() && pendingReads > 0
      modifies this`pendingReads, this`confirmed, this`actions
      ensures Valid()
      ensures pendingReads == old(pendingReads) - 1
      ensures r == ReadLevel(0) && !old(confirmed) ==>
        && confirmed
        && actions == old(actions) + ReportActions(position, hasMotor, hasCallback, hasIo)
      ensures !(r == ReadLevel(0) && !old(confirmed)) ==>
        confirmed == old(confirmed) && actions == old(actions)
    {
      pendingReads := pendingReads - 1;
      if r.ReadError? {
        return;
      }
      if r.level == 0 && !confirmed {
        confirmed := true;
        var report: seq<Action> := [];
        if hasMotor {
          report := report + [StopMotors];
        }
        if hasCallback {
          report := report + [ObstacleCallback(position)];
        }
        if hasIo {
          report := report + [EmitObstacle(position)];
        }
        actions := actions + report;
      }
    }
  }
}
