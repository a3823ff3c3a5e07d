/**
 One teleop cycle from raw inputs, and runs of consecutive cycles.

 The desired heading is the only value carried from one cycle to the next. A
 cycle reads the stick's left X and left Y axes and the gyro heading, negates
 both axes, runs the steer/hold decision and mixes the result into wheel
 commands.
 */
module HeadingHold {
  import opened TurnBlend

  /** The raw readings of one cycle: stick left X, stick left Y (both positive
      to the right / toward the operator) and the gyro heading in degrees. */
  datatype Input = Input(rawX: real, rawY: real, gyro: real)

  /** What one cycle produces: the forward/back command, the rotation command
      that went into the mix, the wheel commands and the desired heading for
      the next cycle. */
  datatype Cycle = Cycle(fwd: real, rot: real, wheels: Wheels, desAngle: real)

  /** The controller negates both stick axes. */
  function Negate(raw: real): real
  {
    -1.0 * raw
  }

  /** The operator steers in a cycle when the negated X axis is not exactly zero. */
  predicate Steers(i: Input)
  {
    Negate(i.rawX) != 0.0
  }

  /** One teleop cycle with desired heading `desAngle` on entry. */
  function Step(desAngle: real, i: Input): (c: Cycle)
    ensures c.fwd == -i.rawY
    // steer: the rotation is the operator's, the hold re-arms at the gyro heading
    ensures Steers(i) ==> c.rot == -i.rawX && c.desAngle == i.gyro
    // hold: the desired heading is unchanged, the rotation is the correction
    ensures !Steers(i) ==> c.desAngle == desAngle && c.rot == (desAngle - i.gyro) * 0.05
    ensures c.wheels.left == c.fwd - c.rot && c.wheels.right == c.fwd + c.rot
  {
    var fwd := Negate(i.rawY);
    var d := Decide(Negate(i.rawX), i.gyro, desAngle);
    Cycle(fwd, d.rot, Mix(fwd, d.rot), d.desAngle)
  }

  /** The cycles of a run over `ins`, starting with desired heading `desAngle`;
      each cycle hands its desired heading to the next. */
  function Run(desAngle: real, ins: seq<Input>): (trace: seq<Cycle>)
    ensures |trace| == |ins|
    ensures forall k :: 0 <= k < |ins| ==>
      trace[k].wheels.left + trace[k].wheels.right == -2.0 * ins[k].rawY
    ensures forall k :: 0 <= k < |ins| && Steers(ins[k]) ==>
      trace[k].desAngle == ins[k].gyro && trace[k].rot == -ins[k].rawX
    decreases |ins|
  {
    if |ins| == 0 then []
    else
      var c := Step(desAngle, ins[0]);
      [c] + Run(c.desAngle, ins[1..])
  }

  /** The desired heading after a run over `ins`. */
  function FinalHeading(desAngle: real, ins: seq<Input>): real
    decreases |ins|
  {
    if |ins| == 0 then desAngle
    else FinalHeading(Step(desAngle, ins[0]).desAngle, ins[1..])
  }

  /** Reference definition: the gyro heading of the last cycle in which the
      operator steered, or `desAngle` when nobody steered. */
  function LastSteer(desAngle: real, ins: seq<Input>): real
    decreases |ins|
  {
    if |ins| == 0 then desAngle
    else if Steers(ins[|ins| - 1]) then ins[|ins| - 1].gyro
    else LastSteer(desAngle, ins[..|ins| - 1])
  }

  /** Running one more cycle after a run moves the desired heading as one step does. */
  lemma {:induction false} FinalHeadingSnoc(desAngle: real, ins: seq<Input>, i: Input)
    ensures FinalHeading(desAngle, ins + [i]) == Step(FinalHeading(desAngle, ins), i).desAngle
    decreases |ins|
  {
    if |ins| != 0 {
      assert (ins + [i])[1..] == ins[1..] + [i];
      FinalHeadingSnoc(Step(desAngle, ins[0]).desAngle, ins[1..], i);
    }
  }

  /** The heading the controller holds after any run is the gyro heading of the
      last cycle in which the operator steered, or the starting heading if they
      never steered. */
  lemma {:induction false} FinalHeadingIsLastSteer(desAngle: real, ins: seq<Input>)
    ensures FinalHeading(desAngle, ins) == LastSteer(desAngle, ins)
    decreases |ins|
  {
    if |ins| != 0 {
      var front := ins[..|ins| - 1];
      var last := ins[|ins| - 1];
      assert ins == front + [last];
      FinalHeadingSnoc(desAngle, front, last);
      FinalHeadingIsLastSteer(desAngle, front);
    }
  }

  /** The reference heading of a run can be read after its first cycle:
      scanning from the heading that cycle carries over the remaining inputs. */
  lemma {:induction false} LastSteerAfterFirst(desAngle: real, ins: seq<Input>)
    requires |ins| > 0
    ensures LastSteer(desAngle, ins) == LastSteer(Step(desAngle, ins[0]).desAngle, ins[1..])
  {
    FinalHeadingIsLastSteer(desAngle, ins);
    FinalHeadingIsLastSteer(Step(desAngle, ins[0]).desAngle, ins[1..]);
  }

  /** Every cycle of a run, hold cycles included, is one step from the heading
      the earlier cycles leave behind: the gyro heading of the last earlier
      steer cycle, or the starting heading if none steered. */
  lemma {:induction false} RunCarriesLastSteer(desAngle: real, ins: seq<Input>)
    ensures forall k :: 0 <= k < |ins| ==> Run(desAngle, ins)[k] == Step(LastSteer(desAngle, ins[..k]), ins[k])
    decreases |ins|
  {
    if |ins| != 0 {
      var next := Step(desAngle, ins[0]).desAngle;
      RunCarriesLastSteer(next, ins[1..]);
      forall k | 1 <= k < |ins|
        ensures Run(desAngle, ins)[k] == Step(LastSteer(desAngle, ins[..k]), ins[k])
      {
        assert ins[..k][1..] == ins[1..][..k - 1];
        LastSteerAfterFirst(desAngle, ins[..k]);
      }
    }
  }

  /** Holding never moves the desired heading: through any run of hold cycles
      every cycle carries the starting heading. */
  lemma {:induction false} HoldRunKeepsHeading(desAngle: real, ins: seq<Input>)
    requires forall k :: 0 <= k < |ins| ==> !Steers(ins[k])
    ensures forall k :: 0 <= k < |ins| ==> Run(desAngle, ins)[k].desAngle == desAngle
    ensures FinalHeading(desAngle, ins) == desAngle
    decreases |ins|
  {
    if |ins| != 0 {
      HoldRunKeepsHeading(desAngle, ins[1..]);
    }
  }

  /** A run of hold cycles whose gyro heading stays at the desired heading
      applies no correction: both wheels get the forward/back command. */
  lemma {:induction false} HoldRunOnTarget(desAngle: real, ins: seq<Input>)
    requires forall k :: 0 <= k < |ins| ==> !Steers(ins[k]) && ins[k].gyro == desAngle
    ensures forall k :: 0 <= k < |ins| ==>
      && Run(desAngle, ins)[k].rot == 0.0
      && Run(desAngle, ins)[k].wheels.left == Run(desAngle, ins)[k].fwd
      && Run(desAngle, ins)[k].wheels.right == Run(desAngle, ins)[k].fwd
    decreases |ins|
  {
    if |ins| != 0 {
      HoldRunOnTarget(desAngle, ins[1..]);
    }
  }

  /** Steer, then release the stick without the robot turning further: every
      hold cycle after the release is on target, whatever the heading before. */
  lemma {:induction false} SteerThenRelease(desAngle: real, steer: Input, holds: seq<Input>)
    requires Steers(steer)
    requires forall k :: 0 <= k < |holds| ==> !Steers(holds[k]) && holds[k].gyro == steer.gyro
    ensures forall k :: 1 <= k <= |holds| ==> Run(desAngle, [steer] + holds)[k].rot == 0.0
  {
    var ins := [steer] + holds;
    assert ins[1..] == holds;
    HoldRunOnTarget(steer.gyro, holds);
  }

  /** The controller does not clamp: for every bound there is a hold cycle,
      with both sticks centred, whose correction alone drives the wheel
      commands out of [-bound, bound] on both sides. */
  lemma Unclamped(bound: real)
    ensures exists desAngle: real, i: Input ::
      && !Steers(i)
      && i.rawY == 0.0
      && Step(desAngle, i).wheels.right > bound
      && Step(desAngle, i).wheels.left < -bound
  {
    var m := if bound < 0.0 then 1.0 else bound + 1.0;
    var i := Input(0.0, 0.0, 0.0);
    assert Step(20.0 * m, i).wheels == Wheels(-m, m);
  }

  /** Holding 30 degrees while pointing at 10 and driving at half speed asks
      for -0.5 on the left and 1.5 on the right. */
  lemma HoldScenario()
    ensures Step(30.0, Input(0.0, -0.5, 10.0)) == Cycle(0.5, 1.0, Wheels(-0.5, 1.5), 30.0)
  {
  }

  /** Steering right at -0.3 while pointing at 45 degrees re-arms the hold at 45. */
  lemma SteerScenario()
    ensures Step(0.0, Input(0.3, -0.2, 45.0)) == Cycle(0.2, -0.3, Wheels(0.5, -0.1), 45.0)
  {
  }
}
