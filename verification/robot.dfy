/**
 The robot object's teleop hooks around the heading-hold controller.

 The robot keeps one attribute across cycles, `desAngle`. Robot start-up
 stores a bare float 0.0 in it, while teleop entry and every steer cycle store
 a rotation object. Only a rotation object answers `.degrees()`, so a hold
 cycle that finds the bare float raises an attribute error instead of
 driving. The host always enters teleop before the first teleop cycle, so in
 practice the float is overwritten before it is read.
 */
module Robot {
  import opened HeadingHold

  /** The value stored in `desAngle`: a bare float, or a rotation in degrees. */
  datatype Heading = Bare(value: real) | Rotation(deg: real)

  /** The robot object's state carried between hook calls. */
  datatype State = State(desAngle: Heading)

  /** One teleop cycle either runs to completion, giving its cycle and the
      robot's new state, or raises because `desAngle` has no `.degrees()`. */
  datatype Outcome = Ran(cycle: Cycle, next: State) | AttributeError

  /** A run of teleop cycles: completed, or stopped by the first exception
      after the cycles listed in `trace` had completed. */
  datatype Session = Completed(trace: seq<Cycle>, final: State) | Faulted(trace: seq<Cycle>)

  /** Robot start-up: `desAngle` is the bare float 0.0. */
  function RobotInit(): (r: State)
    ensures r.desAngle.Bare? && r.desAngle.value == 0.0
    // before teleop entry, exactly the hold cycles raise
    ensures forall i :: TeleopPeriodic(r, i).AttributeError? <==> !Steers(i)
  {
    State(Bare(0.0))
  }

  /** Teleop entry. The gyro is zeroed (an effect outside this model) and
      `desAngle` becomes the rotation of 0 degrees, whatever it held before. */
  function TeleopInit(r: State): (r': State)
    ensures r'.desAngle == Rotation(0.0)
    // right after entry, with the freshly zeroed gyro still reading 0,
    // a hold cycle runs and applies no correction
    ensures forall i :: !Steers(i) && i.gyro == 0.0 ==>
      TeleopPeriodic(r', i).Ran? && TeleopPeriodic(r', i).cycle.rot == 0.0
  {
    State(Rotation(0.0))
  }

  /** One teleop cycle of the robot. */
  function TeleopPeriodic(r: State, i: Input): (o: Outcome)
    // the only failure: a hold cycle reading the bare float
    ensures o.AttributeError? <==> r.desAngle.Bare? && !Steers(i)
    // a completed cycle always leaves a rotation behind
    ensures o.Ran? ==> o.next.desAngle.Rotation? && o.next.desAngle.deg == o.cycle.desAngle
    // with a rotation stored, the cycle is the controller's step
    ensures r.desAngle.Rotation? ==> o.Ran? && o.cycle == Step(r.desAngle.deg, i)
    // a steer cycle over the bare float is an ordinary steer step
    ensures r.desAngle.Bare? && Steers(i) ==> o.Ran? && o.cycle == Step(r.desAngle.value, i)
  {
    match r.desAngle
    case Rotation(d) =>
      var c := Step(d, i);
      Ran(c, State(Rotation(c.desAngle)))
    case Bare(v) =>
      if Steers(i) then
        var c := Step(v, i);
        Ran(c, State(Rotation(c.desAngle)))
      else
        AttributeError
  }

  /** `trace` completed before the cycles summarised by `s`. */
  function After(trace: seq<Cycle>, s: Session): Session
  {
    match s
    case Completed(t, f) => Completed(trace + t, f)
    case Faulted(t) => Faulted(trace + t)
  }

  /** The host calling the teleop cycle once per period over `ins`. An
      exception ends the session. */
  function TeleopSession(r: State, ins: seq<Input>): (s: Session)
    ensures |s.trace| <= |ins|
    ensures s.Completed? ==> |s.trace| == |ins|
    ensures s.Faulted? ==> |s.trace| < |ins|
    decreases |ins|
  {
    if |ins| == 0 then Completed([], r)
    else
      match TeleopPeriodic(r, ins[0])
      case AttributeError => Faulted([])
      case Ran(c, next) => After([c], TeleopSession(next, ins[1..]))
  }

  /** The periodic driver: the robot state lives in a variable that each
      cycle overwrites, as the attribute does. */
  method TeleopLoop(r: State, ins: seq<Input>) returns (trace: seq<Cycle>, final: State, faulted: bool)
    ensures faulted ==> TeleopSession(r, ins) == Faulted(trace)
    ensures !faulted ==> TeleopSession(r, ins) == Completed(trace, final)
  {
    var robot := r;
    var k := 0;
    trace := [];
    while k < |ins|
      invariant 0 <= k <= |ins|
      invariant TeleopSession(r, ins) == After(trace, TeleopSession(robot, ins[k..]))
      decreases |ins| - k
    {
      match TeleopPeriodic(robot, ins[k])
      case AttributeError =>
        return trace, robot, true;
      case Ran(c, next) =>
        assert ins[k..][1..] == ins[k + 1..];
        var rest := TeleopSession(next, ins[k + 1..]);
        assert After(trace, After([c], rest)) == After(trace + [c], rest) by {
          assert trace + ([c] + rest.trace) == (trace + [c]) + rest.trace;
        }
        trace := trace + [c];
        robot := next;
        k := k + 1;
    }
    return trace, robot, false;
  }

  /** Once a rotation is stored, a session never raises: it is exactly the
      controller's run, and ends holding the run's final heading. */
  lemma {:induction false} SessionFromRotation(d: real, ins: seq<Input>)
    ensures TeleopSession(State(Rotation(d)), ins)
         == Completed(Run(d, ins), State(Rotation(FinalHeading(d, ins))))
    decreases |ins|
  {
    if |ins| != 0 {
      SessionFromRotation(Step(d, ins[0]).desAngle, ins[1..]);
    }
  }

  /** Every session that starts with teleop entry runs the controller from
      heading 0 and never raises, whatever state the robot was in before. */
  lemma {:induction false} SessionAfterTeleopInit(r: State, ins: seq<Input>)
    ensures TeleopSession(TeleopInit(r), ins)
         == Completed(Run(0.0, ins), State(Rotation(LastSteer(0.0, ins))))
  {
    SessionFromRotation(0.0, ins);
    FinalHeadingIsLastSteer(0.0, ins);
  }

  /** Without teleop entry, a session raises exactly when its first cycle is a
      hold: a first steer cycle stores a rotation and the rest runs. */
  lemma {:induction false} SessionWithoutTeleopInit(v: real, ins: seq<Input>)
    ensures TeleopSession(State(Bare(v)), ins).Faulted? <==> |ins| > 0 && !Steers(ins[0])
    ensures TeleopSession(State(Bare(v)), ins).Faulted? ==> TeleopSession(State(Bare(v)), ins).trace == []
    ensures |ins| > 0 && Steers(ins[0]) ==>
      TeleopSession(State(Bare(v)), ins)
      == Completed([Step(v, ins[0])] + Run(ins[0].gyro, ins[1..]),
                   State(Rotation(FinalHeading(ins[0].gyro, ins[1..]))))
  {
    if |ins| > 0 && Steers(ins[0]) {
      SessionFromRotation(ins[0].gyro, ins[1..]);
    }
  }

  /** Teleop entry followed by hold cycles while the zeroed gyro keeps reading
      0: no cycle applies a correction, both wheels get the forward/back
      command, and the desired heading stays 0. */
  lemma {:induction false} HoldAfterTeleopInit(r: State, ins: seq<Input>)
    requires forall k :: 0 <= k < |ins| ==> !Steers(ins[k]) && ins[k].gyro == 0.0
    ensures var s := TeleopSession(TeleopInit(r), ins);
      && s.Completed?
      && s.final == State(Rotation(0.0))
      && forall k :: 0 <= k < |ins| ==>
           s.trace[k].rot == 0.0 && s.trace[k].wheels.left == s.trace[k].fwd && s.trace[k].wheels.right == s.trace[k].fwd
  {
    SessionFromRotation(0.0, ins);
    HoldRunKeepsHeading(0.0, ins);
    HoldRunOnTarget(0.0, ins);
  }
}
