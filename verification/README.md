# Heading-hold teleop controller of an XRP differential-drive robot

This project models the teleop control loop of `MyRobot` in `robot.py`. The
robot holds a desired heading, `desAngle`, which is the only value carried from
one control cycle to the next. Each teleop cycle does the following:

- It reads the stick's left X and left Y axes and the gyro heading, then negates both axes.
- If the rotation command is not exactly zero, the operator steers. The command
  passes through unchanged and `desAngle` becomes the present gyro heading.
- Otherwise the robot holds its heading. `desAngle` is kept and the rotation
  command becomes `(desAngle - gyro) * 0.05`.
- Finally it mixes the commands into `left = fwd - rot` and `right = fwd + rot`.

There is no clamping, no dead-band and no angle wrap-around, and the model keeps all three absences.
Headings are real numbers of degrees and all arithmetic is exact (`real`).

Modules:

- `TurnBlend` (`turn_blend.dfy`): the gain, the mixing and its inverse, and the steer/hold decision.
- `HeadingHold` (`heading_hold.dfy`): one cycle from raw inputs (`Step`) and
  runs of consecutive cycles (`Run`, `FinalHeading`). It also has a reference
  definition of where the held heading ends up (`LastSteer`), and lemmas about
  runs of hold cycles.
- `Robot` (`robot.dfy`): the robot's hooks. In Python, `desAngle` is a bare
  float `0.0` after robot start-up. Teleop entry and every steer cycle replace
  it with a `Rotation2d`. Only a `Rotation2d` has `.degrees()`. The model keeps
  that distinction (`Heading = Bare | Rotation`). So a hold cycle that reads
  the bare float raises an attribute error, `TeleopPeriodic` returns
  `AttributeError` in that case, and the lemmas prove when this can happen.
  The module also has the periodic driver as a function over a sequence of
  inputs (`TeleopSession`) and as a loop (`TeleopLoop`).

Inputs that come from outside are parameters of each cycle: the stick axes and
the gyro heading (`HeadingHold.Input`). Outputs to the motors are returned as
values (`Cycle.wheels`).

Two facts about the code that the model keeps:

- Teleop entry stores the constant `Rotation2d(0.0)` right after zeroing the
  gyro, and never reads the gyro (robot.py:78-79). `TeleopInit` sets 0
  whatever was stored before.
- The desired heading is re-armed on cycles with a nonzero rotation command
  and kept otherwise (robot.py:86-91).

An exception raised by a teleop cycle ends the modelled session, as when the
process terminates. This only matters before the first teleop entry, because
`SessionAfterTeleopInit` proves that no exception occurs after it.

## Model

| member | source | states |
|---|---|---|
| TurnBlend.Mix | robot.py:94-95 | The wheel commands sum to twice the forward command and differ (right minus left) by twice the rotation command. |
| TurnBlend.UnmixMix | robot.py:94-95 | Mixing is invertible: the forward and rotation commands are recovered exactly from the wheel commands. |
| TurnBlend.MixUnmix | robot.py:94-95 | Every wheel pair is the mix of the command pair read back from it, so mixing is a bijection. |
| TurnBlend.Decide | robot.py:86-91 | A steer (nonzero command) passes the command through unchanged and re-arms the desired heading at the gyro heading. A hold keeps the desired heading and applies (desired - gyro) * 0.05. The applied rotation is zero iff the operator does not steer and the gyro is on the desired heading. While holding, the correction is positive iff the desired heading is greater than the gyro heading, and negative iff it is less. |
| TurnBlend.ReleaseAtSameHeading | robot.py:86-91 | A hold cycle at the same gyro heading as the previous cycle is on target iff that previous cycle steered or was already on target. |
| HeadingHold.Step | robot.py:81-95 | The forward command is the negated Y axis. A steer cycle (negated X nonzero) passes the negated X axis through and sets the desired heading to the gyro. A hold cycle keeps the desired heading and uses (desired - gyro) * 0.05. left = fwd - rot and right = fwd + rot. |
| HeadingHold.Run | robot.py:81-95 | A run yields one cycle per input. In every cycle left + right is twice the negated Y axis. Every steer cycle re-arms at its gyro heading and uses the operator's rotation. Hold cycles and the heading carried between cycles are stated by `RunCarriesLastSteer`. |
| HeadingHold.FinalHeadingSnoc | robot.py:86-91 | Appending one cycle to a run moves the final desired heading exactly as a single step from the previous final heading. |
| HeadingHold.FinalHeadingIsLastSteer | robot.py:86-91 | After any run the desired heading is the gyro heading of the last steer cycle, or the starting heading if no cycle steered. |
| HeadingHold.LastSteerAfterFirst | robot.py:86-91 | The heading of the last steer cycle can be found in two ways that agree: scan the whole run from the starting heading, or scan the rest of the run from the heading its first cycle carries. |
| HeadingHold.RunCarriesLastSteer | robot.py:81-95 | Every cycle of a run, hold cycles included, is exactly one step from the heading the earlier cycles carry over. That heading is the gyro heading of the last earlier steer cycle, or the starting heading if none steered. |
| HeadingHold.HoldRunKeepsHeading | robot.py:89-91 | Across any run of hold cycles, every cycle carries the starting desired heading and the run ends with it. |
| HeadingHold.HoldRunOnTarget | robot.py:89-95 | Across any run of hold cycles whose gyro reads the desired heading, every correction is 0 and both wheels get the forward command. |
| HeadingHold.SteerThenRelease | robot.py:86-91 | After a steer cycle at heading G, every following hold cycle at heading G applies zero correction, whatever the heading before the steer. |
| HeadingHold.Unclamped | robot.py:91-97 | For every bound there is a hold cycle with both sticks centred whose right command exceeds the bound and whose left command is below its negation. So the correction alone, with nothing clamping it, drives the outputs past any limit. |
| HeadingHold.HoldScenario | robot.py:82-95 | Desired 30, gyro 10, forward 0.5, no rotation input: the correction is 1.0, left -0.5, right 1.5, and the desired heading stays 30. |
| HeadingHold.SteerScenario | robot.py:82-95 | Desired 0, gyro 45, rotation -0.3, forward 0.2: the desired heading becomes 45, the rotation stays -0.3, left 0.5, right -0.1. |
| Robot.RobotInit | robot.py:59 | After start-up, `desAngle` holds the bare float 0.0, not a rotation. From that state, a teleop cycle raises exactly when it is a hold cycle. |
| Robot.TeleopInit | robot.py:76-79 | Teleop entry stores the rotation of 0 degrees, whatever was stored before. The first hold cycle at the zeroed gyro reading 0 then runs and applies no correction. |
| Robot.TeleopPeriodic | robot.py:81-91 | A cycle raises iff `desAngle` is the bare float and the cycle holds. Every other cycle is the controller step: from the stored rotation's degrees, or from the float's value when a steer cycle meets the bare float. A completed cycle always leaves a rotation equal to the cycle's desired heading. |
| Robot.TeleopSession | robot.py:81-91 | A completed session has exactly one cycle per input. A session stopped by an exception has strictly fewer completed cycles than inputs. |
| Robot.TeleopLoop | robot.py:81-97 | The loop, which overwrites the state each cycle, reports exactly the session's completed cycles, final state and whether it faulted. |
| Robot.SessionFromRotation | robot.py:84-91 | Once a rotation is stored, a session never raises, equals the controller's run and ends holding the run's final heading. |
| Robot.SessionAfterTeleopInit | robot.py:76-91 | Every session after teleop entry completes and equals the run from heading 0. It ends holding the gyro heading of the last steer cycle, or 0 if none steered. |
| Robot.SessionWithoutTeleopInit | robot.py:59-91 | Without teleop entry, a session raises iff its first cycle holds, and then no cycle has completed. A session opened by a steer cycle is that steer step followed by the controller's run from the steer's gyro heading, and it ends holding that run's final heading. |
| Robot.HoldAfterTeleopInit | robot.py:76-95 | After teleop entry, hold cycles whose zeroed gyro keeps reading 0 complete, apply no correction, and drive both wheels at the forward command. The desired heading stays 0. |

## Left out

- Hardware construction of the stick, gyro and motors, and the right motor's inverted polarity (robot.py:54-58): these are calls into device libraries. The model takes axis and gyro values as inputs.
- Motor dispatch (robot.py:96-97): this is actuator output. The model returns the wheel commands instead.
- Dashboard telemetry (robot.py:98-101): it is output that is never read back. The published forward and rotation commands are kept as fields of `Cycle`.
- Simulator host and port environment settings (robot.py:47-48): this is process configuration.
- The gyro reset in teleop entry (robot.py:78): it is an effect on the sensor. Its consequence, a gyro reading of 0 right after entry, is the `gyro == 0` hypothesis of `TeleopInit` and `HoldAfterTeleopInit`.
- `Rotation2d` internals: the model treats `.degrees()` as the identity on degrees. Whether the library wraps angles is not visible in this repository.
- IEEE floating point: the model uses exact reals, so NaN, rounding and the sign of zero are not modelled.
- Disabled and autonomous hooks (robot.py:61-73): they do nothing and change no state.
- The host's scheduler, period timing and watchdog: cycle order is the order of the input sequence.
- What the host does after a teleop cycle raises: the session simply stops.
