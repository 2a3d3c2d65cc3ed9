/**
 * The daemon-backed motor and light driver (`motor.js`): once the GPIO daemon
 * connects, the bridge's enables are switched on for good, the motors stopped and the
 * light switched off, and the driver becomes ready; until then every command does
 * nothing. Pin levels live in the daemon, so they survive from before the connection.
 */
module Motor {
  import opened HBridge

  /** The Broadcom GPIO numbers of the driver's pins. */
  function Gpio(p: Pin): nat {
    match p
    case In1 => 5
    case In2 => 12
    case In3 => 16
    case In4 => 20
    case Ena => 18
    case Enb => 13
    case Light => 27
  }

  lemma GpioDistinct(p: Pin, q: Pin)
    ensures p != q ==> Gpio(p) != Gpio(q)
  {
  }

  class MotorDriver {
    var ready: bool
    /** The level of every pin, as the GPIO daemon holds it. */
    var levels: map<Pin, Level>
    /** Every pin write, in order. */
    var pinWrites: seq<(Pin, Level)>

    ghost predicate Valid()
      reads this
    {
      forall p: Pin :: p in levels
    }

    function Motors(): Inputs
      reads this
      requires Valid()
    {
      InputsOf(levels)
    }

    /** Module load: not ready, with the daemon's pin levels as they were left. */
    constructor (initial: map<Pin, Level>)
      requires forall p: Pin :: p in initial
      ensures Valid()
      ensures !ready && levels == initial && pinWrites == []
    {
      ready, levels, pinWrites := false, initial, [];
    }

    method WritePin(p: Pin, l: Level)
      modifies this`levels, this`pinWrites
      ensures levels == old(levels)[p := l]
      ensures pinWrites == old(pinWrites) + [(p, l)]
    {
      levels := levels[p := l];
      pinWrites := pinWrites + [(p, l)];
    }

    /** The four writes of a command, in order; they set exactly the command's pattern. */
    method Apply(d: Direction)
      requires Valid()
      modifies this`levels, this`pinWrites
      ensures Valid()
      ensures Motors() == Pattern(d)
      ensures forall p | p !in {In1, In2, In3, In4} :: levels[p] == old(levels)[p]
      ensures pinWrites == old(pinWrites) + Writes(d)
    {
      var x := Pattern(d);
      WritePin(In1, x.in1);
      WritePin(In2, x.in2);
      WritePin(In3, x.in3);
      WritePin(In4, x.in4);
    }

    /**
     * The common contract of the five motor commands: not ready, nothing is written;
     * ready, the four inputs take the command's pattern and nothing else changes.
     */
    method Command(d: Direction)
      requires Valid()
      modifies this`levels, this`pinWrites
      ensures Valid()
      ensures !ready ==> levels == old(levels) && pinWrites == old(pinWrites)
      ensures ready ==>
        && Motors() == Pattern(d) && Safe(Motors())
        && (forall p | p !in {In1, In2, In3, In4} :: levels[p] == old(levels)[p])
        && pinWrites == old(pinWrites) + Writes(d)
    {
      if !ready {
        return;
      }
      Apply(d);
    }

    method StopAll()
      requires Valid()
      modifies this`levels, this`pinWrites
      ensures Valid()
      ensures !ready ==> levels == old(levels) && pinWrites == old(pinWrites)
      ensures ready ==> Motors() == Inputs(0, 0, 0, 0) && pinWrites == old(pinWrites) + Writes(Stop)
      ensures ready ==> forall p | p !in {In1, In2, In3, In4} :: levels[p] == old(levels)[p]
    {
      Command(Stop);
    }

    method Forward()
      requires Valid()
      modifies this`levels, this`pinWrites
      ensures Valid()
      ensures !ready ==> levels == old(levels) && pinWrites == old(pinWrites)
      ensures ready ==> Motors() == Inputs(1, 0, 1, 0) && pinWrites == old(pinWrites) + Writes(Direction.Forward)
      ensures ready ==> forall p | p !in {In1, In2, In3, In4} :: levels[p] == old(levels)[p]
    {
      Command(Direction.Forward);
    }

    method Backward()
      requires Valid()
      modifies this`levels, this`pinWrites
      ensures Valid()
      ensures !ready ==> levels == old(levels) && pinWrites == old(pinWrites)
      ensures ready ==> Motors() == Inputs(0, 1, 0, 1) && pinWrites == old(pinWrites) + Writes(Direction.Backward)
      ensures ready ==> forall p | p !in {In1, In2, In3, In4} :: levels[p] == old(levels)[p]
    {
      Command(Direction.Backward);
    }

    method Left()
      requires Valid()
      modifies this`levels, this`pinWrites
      ensures Valid()
      ensures !ready ==> levels == old(levels) && pinWrites == old(pinWrites)
      ensures ready ==> Motors() == Inputs(0, 1, 1, 0) && pinWrites == old(pinWrites) + Writes(Direction.Left)
      ensures ready ==> forall p | p !in {In1, In2, In3, In4} :: levels[p] == old(levels)[p]
    {
      Command(Direction.Left);
    }

    method Right()
      requires Valid()
      modifies this`levels, this`pinWrites
      ensures Valid()
      ensures !ready ==> levels == old(levels) && pinWrites == old(pinWrites)
      ensures ready ==> Motors() == Inputs(1, 0, 0, 1) && pinWrites == old(pinWrites) + Writes(Direction.Right)
      ensures ready ==> forall p | p !in {In1, In2, In3, In4} :: levels[p] == old(levels)[p]
    {
      Command(Direction.Right);
    }

    /** Not ready, nothing; ready, the light pin goes high and nothing else changes. */
    method LightOn()
      requires Valid()
      modifies this`levels, this`pinWrites
      ensures Valid()
      ensures !ready ==> levels == old(levels) && pinWrites == old(pinWrites)
      ensures ready ==> levels == old(levels)[Light := 1] && pinWrites == old(pinWrites) + [(Light, 1)]
    {
      if ready {
        WritePin(Light, 1);
      }
    }

    /** Not ready, nothing; ready, the light pin goes low and nothing else changes. */
    method LightOff()
      requires Valid()
      modifies this`levels, this`pinWrites
      ensures Valid()
      ensures !ready ==> levels == old(levels) && pinWrites == old(pinWrites)
      ensures ready ==> levels == old(levels)[Light := 0] && pinWrites == old(pinWrites) + [(Light, 0)]
    {
      if ready {
        WritePin(Light, 0);
      }
    }

    /** SIGINT or SIGTERM: once ready, the motors stop and the light goes off. */
    method OnSignal()
      requires Valid()
      modifies this`levels, this`pinWrites
      ensures Valid()
      ensures !ready ==> levels == old(levels) && pinWrites == old(pinWrites)
      ensures ready ==> Motors() == Pattern(Stop) && levels[Light] == 0
      ensures ready ==> levels[Ena] == old(levels)[Ena] && levels[Enb] == old(levels)[Enb]
      ensures ready ==> pinWrites == old(pinWrites) + Writes(Stop) + [(Light, 0)]
    {
      StopAll();
      LightOff();
    }

    /**
     * The `connected` handler AS WRITTEN: the enables go high, but the stop and
     * light-off calls come before `ready` is set, so on the first connection they do
     * nothing and the direction inputs and the light keep the levels the daemon held.
     */
    method ConnectAsWritten()
      requires Valid()
      modifies this`ready, this`levels, this`pinWrites
      ensures Valid()
      ensures ready && levels[Ena] == 1 && levels[Enb] == 1
      ensures old(ready) ==> Motors() == Pattern(Stop) && levels[Light] == 0
      ensures !old(ready) ==> Motors() == old(Motors()) && levels[Light] == old(levels)[Light]
    {
      WritePin(Ena, 1);
      WritePin(Enb, 1);
      StopAll();
      LightOff();
      ready := true;
    }

    /**
     * The `connected` handler with the driver marked ready before the stop and
     * light-off calls: whatever the daemon held, the bridge is enabled with both motors
     * stopped and the light off.
     */
    method Connect()
      requires Valid()
      modifies this`ready, this`levels, this`pinWrites
      ensures Valid()
      ensures ready && levels[Ena] == 1 && levels[Enb] == 1
      ensures Motors() == Pattern(Stop) && Safe(Motors()) && levels[Light] == 0
    {
      WritePin(Ena, 1);
      WritePin(Enb, 1);
      ready := true;
      StopAll();
      LightOff();
    }
  }

  /**
   * The daemon still holds the forward pattern from an earlier run (the process was
   * killed while driving). As written, connecting enables the bridge over that pattern,
   * so the robot drives off at start-up; with the corrected handler it stands still.
   */
  method StartupDrift() returns (drivesAsWritten: bool, drivesCorrected: bool)
    ensures drivesAsWritten && !drivesCorrected
  {
    var held := map[In1 := 1, In2 := 0, In3 := 1, In4 := 0, Ena := 0, Enb := 0, Light := 0];
    forall p: Pin
      ensures p in held
    {
      match p
      case In1 => case In2 => case In3 => case In4 => case Ena => case Enb => case Light =>
    }
    var a := new MotorDriver(held);
    a.ConnectAsWritten();
    drivesAsWritten := a.levels[Ena] == 1 && a.Motors() != Pattern(Stop);
    var b := new MotorDriver(held);
    b.Connect();
    drivesCorrected := b.levels[Ena] == 1 && b.Motors() != Pattern(Stop);
  }
}
