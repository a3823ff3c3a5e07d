/**
 The turn-blend controller of one teleop cycle. Given the operator's
 forward/back command, the operator's rotation command, the gyro heading and
 the desired heading (all headings in degrees), it decides which rotation to
 apply and blends it with the forward/back command into left and right wheel
 commands.

 Sign conventions: a positive forward/back command drives forward, a positive
 rotation command turns left (counter-clockwise). Nothing is clamped, there is
 no dead-band around a zero rotation command, and the heading error is never
 wrapped into (-180, 180].
 */
module TurnBlend {

  /** Proportional gain from degrees of heading error to a rotation command. */
  const Gain: real := 0.05

  /** The two wheel commands of one cycle (nominally in [-1, 1], never clamped here). */
  datatype Wheels = Wheels(left: real, right: real)

  /** Differential-drive mixing: a positive rotation slows the left wheel and
      speeds up the right one by the same amount. */
  function Mix(fwd: real, rot: real): (w: Wheels)
    ensures w.left + w.right == 2.0 * fwd
    ensures w.right - w.left == 2.0 * rot
  {
    Wheels(fwd - rot, fwd + rot)
  }

  /** The forward/back and rotation commands a pair of wheel commands encodes. */
  function Unmix(w: Wheels): (fr: (real, real))
  {
    ((w.left + w.right) / 2.0, (w.right - w.left) / 2.0)
  }

  /** Mixing loses nothing: the commands can be read back from the wheels. */
  lemma UnmixMix(fwd: real, rot: real)
    ensures Unmix(Mix(fwd, rot)) == (fwd, rot)
  {
  }

  /** Every pair of wheel commands is the mix of exactly one command pair. */
  lemma MixUnmix(w: Wheels)
    ensures Mix(Unmix(w).0, Unmix(w).1) == w
  {
  }

  /** What a cycle applies: the rotation command that goes into the mix and the
      desired heading carried to the next cycle. */
  datatype Decision = Decision(rot: real, desAngle: real)

  /** The proportional correction toward the desired heading. The raw signed
      difference is used, even beyond 180 degrees. */
  function Correction(desAngle: real, gyro: real): real
  {
    (desAngle - gyro) * Gain
  }

  /** The steer/hold decision. Any rotation command other than exactly zero
      steers: it passes through and re-arms the hold at the present heading.
      A zero command holds: the desired heading stays and the correction is
      applied instead. */
  function Decide(rot: real, gyro: real, desAngle: real): (d: Decision)
    // the controller applies no rotation exactly when the operator does not
    // steer and the robot already points at the desired heading
    ensures d.rot == 0.0 <==> rot == 0.0 && desAngle == gyro
    // while holding, the correction turns toward the desired heading
    ensures rot == 0.0 ==> (d.rot > 0.0 <==> desAngle > gyro)
    ensures rot == 0.0 ==> (d.rot < 0.0 <==> desAngle < gyro)
    // a steer passes the command through and re-arms at the present heading
    ensures rot != 0.0 ==> d == Decision(rot, gyro)
    // a hold keeps the desired heading and applies the proportional correction
    ensures rot == 0.0 ==> d.desAngle == desAngle && d.rot == (desAngle - gyro) * Gain
  {
    if rot != 0.0 then Decision(rot, gyro)
    else Decision(Correction(desAngle, gyro), desAngle)
  }

  /** Whatever a cycle decides, a following hold cycle at the same heading is
      on target exactly when the first cycle was a steer or was on target. */
  lemma ReleaseAtSameHeading(rot: real, gyro: real, desAngle: real)
    ensures Decide(0.0, gyro, Decide(rot, gyro, desAngle).desAngle).rot == 0.0
        <==> rot != 0.0 || desAngle == gyro
  {
  }
}
