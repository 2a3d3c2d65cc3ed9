/**
 * The L298N dual H-bridge as both motor drivers drive it: two direction inputs per
 * side (IN1/IN2 for one motor, IN3/IN4 for the other), each written 0 or 1, in the
 * order IN1, IN2, IN3, IN4. Both inputs of one side high is the bridge's brake state.
 */
module HBridge {
  type Level = l: int | 0 <= l <= 1

  /** The driver's outputs; `tmp/motor.js` has only the four direction inputs. */
  datatype Pin = In1 | In2 | In3 | In4 | Ena | Enb | Light

  datatype Direction = Stop | Forward | Backward | Left | Right

  /** The four direction inputs. */
  datatype Inputs = Inputs(in1: Level, in2: Level, in3: Level, in4: Level)

  /** Neither side has both of its inputs high. */
  predicate Safe(x: Inputs) {
    !(x.in1 == 1 && x.in2 == 1) && !(x.in3 == 1 && x.in4 == 1)
  }

  /** The same command with each side's two inputs exchanged: every motor reverses. */
  function Reversed(x: Inputs): Inputs {
    Inputs(x.in2, x.in1, x.in4, x.in3)
  }

  /** The same command with the two sides exchanged. */
  function Mirrored(x: Inputs): Inputs {
    Inputs(x.in3, x.in4, x.in1, x.in2)
  }

  /** The input levels each command sets. */
  function Pattern(d: Direction): (p: Inputs)
    ensures Safe(p)
    ensures p == Inputs(0, 0, 0, 0) <==> d == Stop
  {
    match d
    case Stop => Inputs(0, 0, 0, 0)
    case Forward => Inputs(1, 0, 1, 0)
    case Backward => Inputs(0, 1, 0, 1)
    case Left => Inputs(0, 1, 1, 0)
    case Right => Inputs(1, 0, 0, 1)
  }

  /**
   * The table's structure: distinct commands set distinct levels; backward reverses
   * forward and right reverses left; left and right turn in place, with the two motors
   * running opposite ways, and are each other's mirror image.
   */
  lemma PatternStructure(d: Direction, e: Direction)
    ensures d != e ==> Pattern(d) != Pattern(e)
    ensures Pattern(Backward) == Reversed(Pattern(Forward))
    ensures Pattern(Right) == Reversed(Pattern(Left))
    ensures Pattern(Right) == Mirrored(Pattern(Left))
    ensures Pattern(Forward) == Mirrored(Pattern(Forward))
  {
  }

  /** The four writes a command performs, in order. */
  function Writes(d: Direction): (ws: seq<(Pin, Level)>)
    ensures |ws| == 4
    ensures ws[0].0 == In1 && ws[1].0 == In2 && ws[2].0 == In3 && ws[3].0 == In4
  {
    var p := Pattern(d);
    [(In1, p.in1), (In2, p.in2), (In3, p.in3), (In4, p.in4)]
  }

  /** The direction inputs of a full set of pin levels. */
  function InputsOf(levels: map<Pin, Level>): Inputs
    requires In1 in levels && In2 in levels && In3 in levels && In4 in levels
  {
    Inputs(levels[In1], levels[In2], levels[In3], levels[In4])
  }

  /**
   * Safety holds between commands, not between the single writes of one command:
   * going from backward to forward, the first write leaves IN1 and IN2 both high
   * until the second write lands.
   */
  lemma TransientBrake(levels: map<Pin, Level>)
    requires In1 in levels && In2 in levels && In3 in levels && In4 in levels
    requires InputsOf(levels) == Pattern(Backward)
    ensures var first := Writes(Forward)[0];
      !Safe(InputsOf(levels[first.0 := first.1]))
  {
  }
}
