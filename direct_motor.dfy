/**
 * The native GPIO motor driver (`tmp/motor.js`): four direction inputs driven directly,
 * with no daemon, no enables, no readiness gate and no light. Every command writes all
 * four inputs, so after any command the bridge holds exactly that command's pattern,
 * whatever it held before. The distance sensor is disabled.
 */
module DirectMotor {
  import opened Wrappers
  import opened HBridge

  /** The Broadcom GPIO numbers of the four inputs. */
  function Gpio(p: Pin): nat
    requires p in {In1, In2, In3, In4}
  {
    match p
    case In1 => 5
    case In2 => 6
    case In3 => 13
    case In4 => 19
  }

  class DirectDriver {
    var motors: Inputs
    /** Every `digitalWrite`, in order. */
    var pinWrites: seq<(Pin, Level)>

    /** Exporting the pins as outputs leaves their levels as they were. */
    constructor (initial: Inputs)
      ensures motors == initial && pinWrites == []
    {
      motors, pinWrites := initial, [];
    }

    method DigitalWrite(p: Pin, l: Level)
      requires p in {In1, In2, In3, In4}
      modifies this
      ensures motors == match p
        case In1 => old(motors).(in1 := l)
        case In2 => old(motors).(in2 := l)
        case In3 => old(motors).(in3 := l)
        case _ => old(motors).(in4 := l)
      ensures pinWrites == old(pinWrites) + [(p, l)]
    {
      match p {
        case In1 => motors := motors.(in1 := l);
        case In2 => motors := motors.(in2 := l);
        case In3 => motors := motors.(in3 := l);
        case In4 => motors := motors.(in4 := l);
      }
      pinWrites := pinWrites + [(p, l)];
    }

    /** One command: its four writes, in order, leave exactly its pattern. */
    method Drive(d: Direction)
      modifies this
      ensures motors == Pattern(d) && Safe(motors)
      ensures pinWrites == old(pinWrites) + Writes(d)
    {
      var x := Pattern(d);
      DigitalWrite(In1, x.in1);
      DigitalWrite(In2, x.in2);
      DigitalWrite(In3, x.in3);
      DigitalWrite(In4, x.in4);
    }

    method StopAll()
      modifies this
      ensures motors == Inputs(0, 0, 0, 0) && pinWrites == old(pinWrites) + Writes(Stop)
    {
      Drive(Stop);
    }

    method Forward()
      modifies this
      ensures motors == Inputs(1, 0, 1, 0) && pinWrites == old(pinWrites) + Writes(Direction.Forward)
    {
      Drive(Direction.Forward);
    }

    method Backward()
      modifies this
      ensures motors == Inputs(0, 1, 0, 1) && pinWrites == old(pinWrites) + Writes(Direction.Backward)
    {
      Drive(Direction.Backward);
    }

    method Left()
      modifies this
      ensures motors == Inputs(0, 1, 1, 0) && pinWrites == old(pinWrites) + Writes(Direction.Left)
    {
      Drive(Direction.Left);
    }

    method Right()
      modifies this
      ensures motors == Inputs(1, 0, 0, 1) && pinWrites == old(pinWrites) + Writes(Direction.Right)
    {
      Drive(Direction.Right);
    }
  }

  /** `getDistance`: the sensor is disabled and the answer is always `null`. */
  method GetDistance() returns (d: Option<nat>)
    ensures d == None
  {
    d := None;
  }

  /**
   * A usage scenario, not a loop of the module itself: a caller issuing any run of
   * commands, from any starting levels, ends with the last command's pattern, which
   * never has both inputs of one side high.
   */
  method Run(drv: DirectDriver, ds: seq<Direction>)
    requires ds != []
    modifies drv
    ensures drv.motors == Pattern(ds[|ds| - 1]) && Safe(drv.motors)
  {
    for i := 0 to |ds|
      invariant i > 0 ==> drv.motors == Pattern(ds[i - 1])
    {
      drv.Drive(ds[i]);
    }
  }
}
