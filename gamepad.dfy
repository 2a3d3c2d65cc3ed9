/**
 * The gamepad bridge (`controller.js`): joystick axis events become drive commands and
 * speed changes, and the A and B buttons become one `snapshot` or `record` command per
 * press. Everything sent to the control server is kept as a log.
 */
module Gamepad {
  /** The dead zone of both stick axes: values strictly beyond it drive. */
  const STICK_THRESHOLD: int := 20000
  const INITIAL_SPEED: int := 50
  const MAX_SPEED: int := 100

  const AXIS_STICK_X: int := 0
  const AXIS_STICK_Y: int := 1
  const AXIS_LT: int := 2
  const AXIS_RT: int := 5
  const BUTTON_A: int := 0
  const BUTTON_B: int := 1

  /** What the bridge sends to the control server. */
  datatype Command = Move(dir: string) | StopAll | Speed(value: int) | Snapshot | Record

  /**
   * A stick axis: beyond the threshold on the negative side drives towards `neg`,
   * beyond it on the positive side towards `pos`, and anything within the dead zone,
   * its edges included, stops the motors.
   */
  function StickCommand(value: int, neg: string, pos: string): (c: Command)
    requires neg != pos
    ensures c == Move(neg) <==> value < -STICK_THRESHOLD
    ensures c == Move(pos) <==> value > STICK_THRESHOLD
    ensures c == StopAll <==> -STICK_THRESHOLD <= value <= STICK_THRESHOLD
  {
    if value < -STICK_THRESHOLD then Move(neg)
    else if value > STICK_THRESHOLD then Move(pos)
    else StopAll
  }

  /** The commands one axis event sends, given the speed after it. */
  function AxisCommands(number: int, value: int, speed: int): seq<Command> {
    if number == AXIS_STICK_Y then [StickCommand(value, "forward", "backward")]
    else if number == AXIS_STICK_X then [StickCommand(value, "left", "right")]
    else if (number == AXIS_RT || number == AXIS_LT) && value > 0 then [Speed(speed)]
    else []
  }

  /**
   * The speed after one axis event: a pressed right trigger adds one unless the speed
   * is already at 100, a pressed left trigger takes one away unless it is at 0.
   */
  function NextSpeed(number: int, value: int, speed: int): (r: int)
    requires 0 <= speed <= MAX_SPEED
    ensures 0 <= r <= MAX_SPEED
    ensures number == AXIS_RT && value > 0 && speed < MAX_SPEED ==> r == speed + 1
    ensures number == AXIS_LT && value > 0 && speed > 0 ==> r == speed - 1
    ensures !(number in {AXIS_RT, AXIS_LT} && value > 0) ==> r == speed
    ensures (speed == MAX_SPEED && number == AXIS_RT) || (speed == 0 && number == AXIS_LT) ==> r == speed
  {
    if number == AXIS_RT && value > 0 then (if speed + 1 < MAX_SPEED then speed + 1 else MAX_SPEED)
    else if number == AXIS_LT && value > 0 then (if speed - 1 > 0 then speed - 1 else 0)
    else speed
  }

  /** A button's latch after one event, and whether the event fires its command. */
  datatype LatchStep = LatchStep(pressed: bool, fire: bool)

  /**
   * A press (value 1) fires only when the latch is open and then closes it; a release
   * (value 0) opens it; any other value changes nothing.
   */
  function Latch(pressed: bool, value: int): (r: LatchStep)
    ensures r.fire <==> value == 1 && !pressed
    ensures value == 1 ==> r.pressed
    ensures value == 0 ==> !r.pressed
    ensures value != 0 && value != 1 ==> r.pressed == pressed
  {
    if value == 1 && !pressed then LatchStep(true, true)
    else if value == 0 then LatchStep(false, false)
    else LatchStep(pressed, false)
  }

  /** The latch after a run of events on one button. */
  function LatchAfter(pressed: bool, values: seq<int>): bool
    decreases |values|
  {
    if values == [] then pressed
    else Latch(LatchAfter(pressed, values[..|values| - 1]), values[|values| - 1]).pressed
  }

  /** Whether the `i`-th event of the run fires the button's command. */
  predicate FiresAt(pressed: bool, values: seq<int>, i: nat)
    requires i < |values|
  {
    Latch(LatchAfter(pressed, values[..i]), values[i]).fire
  }

  /** Without a release, a closed latch stays closed. */
  lemma {:induction false} LatchStaysClosed(pressed: bool, values: seq<int>, i: nat, j: nat)
    requires i < j <= |values|
    requires LatchAfter(pressed, values[..i + 1])
    requires forall k | i < k < j :: values[k] != 0
    ensures LatchAfter(pressed, values[..j])
    decreases j
  {
    if j > i + 1 {
      LatchStaysClosed(pressed, values, i, j - 1);
      assert values[..j][..j - 1] == values[..j - 1];
    }
  }

  /**
   * One command per press: between any two events that fire the command there is a
   * release event.
   */
  lemma LatchSeparation(pressed: bool, values: seq<int>, i: nat, j: nat)
    requires i < j < |values|
    requires FiresAt(pressed, values, i) && FiresAt(pressed, values, j)
    ensures exists k :: i < k < j && values[k] == 0
  {
    if forall k | i < k < j :: values[k] != 0 {
      assert values[..i + 1][..i] == values[..i];
      LatchStaysClosed(pressed, values, i, j);
      assert false;
    }
  }

  class Controller {
    var currentSpeed: int
    var aPressed: bool
    var bPressed: bool
    /** Everything sent to the control server, in order. */
    var sent: seq<Command>

    ghost predicate Valid()
      reads this
    {
      0 <= currentSpeed <= MAX_SPEED
    }

    constructor ()
      ensures Valid()
      ensures currentSpeed == INITIAL_SPEED && !aPressed && !bPressed && sent == []
    {
      currentSpeed, aPressed, bPressed, sent := INITIAL_SPEED, false, false, [];
    }

    /**
     * An axis event. The sticks send a drive or stop command; a pressed trigger moves
     * the speed by one within [0, 100] and always sends the resulting speed, even when
     * the speed was already at its bound.
     */
    method OnAxis(number: int, value: int)
      requires Valid()
      modifies this`currentSpeed, this`sent
      ensures Valid()
      ensures currentSpeed == NextSpeed(number, value, old(currentSpeed))
      ensures sent == old(sent) + AxisCommands(number, value, currentSpeed)
    {
      if number == AXIS_STICK_Y {
        if value < -STICK_THRESHOLD {
          sent := sent + [Move("forward")];
        } else if value > STICK_THRESHOLD {
          sent := sent + [Move("backward")];
        } else {
          sent := sent + [StopAll];
        }
      }
      if number == AXIS_STICK_X {
        if value < -STICK_THRESHOLD {
          sent := sent + [Move("left")];
        } else if value > STICK_THRESHOLD {
          sent := sent + [Move("right")];
        } else {
          sent := sent + [StopAll];
        }
      }
      if number == AXIS_RT && value > 0 {
        currentSpeed := if currentSpeed + 1 < MAX_SPEED then currentSpeed + 1 else MAX_SPEED;
        sent := sent + [Speed(currentSpeed)];
      }
      if number == AXIS_LT && value > 0 {
        currentSpeed := if currentSpeed - 1 > 0 then currentSpeed - 1 else 0;
        sent := sent + [Speed(currentSpeed)];
      }
    }

    /** A button event: A drives the snapshot latch, B the record latch. */
    method OnButton(number: int, value: int)
      modifies this`aPressed, this`bPressed, this`sent
      ensures aPressed == if number == BUTTON_A then Latch(old(aPressed), value).pressed else old(aPressed)
      ensures bPressed == if number == BUTTON_B then Latch(old(bPressed), value).pressed else old(bPressed)
      ensures number == BUTTON_A ==> sent == old(sent) + (if Latch(old(aPressed), value).fire then [Snapshot] else [])
      ensures number == BUTTON_B ==> sent == old(sent) + (if Latch(old(bPressed), value).fire then [Record] else [])
      ensures number != BUTTON_A && number != BUTTON_B ==> sent == old(sent)
    {
      if number == BUTTON_A {
        if value == 1 && !aPressed {
          aPressed := true;
          sent := sent + [Snapshot];
        }
        if value == 0 {
          aPressed := false;
        }
      }
      if number == BUTTON_B {
        if value == 1 && !bPressed {
          bPressed := true;
          sent := sent + [Record];
        }
        if value == 0 {
          bPressed := false;
        }
      }
    }
  }
}
