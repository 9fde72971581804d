/** The part of a `RobotArm2.update` tick that all three versions share:
    the joint state, and what happens once the goal angles are known
    (the proportional step of both joints, the previous-destination
    bookkeeping and the goal check that may advance the waypoint cursor). */
module ArmStep {
  import opened Wrappers
  import opened Kinematics
  import opened MotionCursor

  /** The fields every version updates: joint angles, the destination being
      aimed at, the last destination that was solved, and the cursor. */
  datatype Pose = Pose(
    theta1: real,
    theta2: real,
    destination: Coordinate,
    previousDestination: Coordinate,
    sequenceCount: nat)

  /** What a tick reads but never changes. */
  datatype ArmConfig = ArmConfig(
    gain: real,
    sampleTime: real,
    geometry: Geometry,
    pattern: Option<seq<Coordinate>>)

  /** Every version starts with both angles 0, destination and previous
      destination `[0, 0]` and a cursor at 0. */
  const InitialPose: Pose := Pose(0.0, 0.0, Origin, Origin, 0)

  /** What the ticks keep: the previous destination is one that was solved
      (so it is numeric), and the cursor stays within the pattern (at 0
      when there is none). */
  predicate PoseInvariant(cfg: ArmConfig, p: Pose)
  {
    && IsNumeric(p.previousDestination)
    && (cfg.pattern.None? ==> p.sequenceCount == 0)
    && (cfg.pattern.Some? ==> p.sequenceCount <= |cfg.pattern.value|)
  }

  lemma InitialPoseInvariant(cfg: ArmConfig)
    ensures PoseInvariant(cfg, InitialPose)
  {
  }

  /** The pose after a solved tick, and whether `get_motion_sequence`
      raised IndexError (an empty pattern). */
  datatype Stepped = Stepped(pose: Pose, indexError: bool)

  /** A tick once the destination was solved to `goals`: both joints take a
      proportional step, the previous destination becomes the destination
      aimed at, and if the new wrist position is within the goal threshold
      the cursor advances. */
  function Approach(m: Trig, cfg: ArmConfig, p: Pose, goals: Goals): (r: Stepped)
    requires IsNumeric(p.destination)
    ensures r.pose.previousDestination == p.destination
    ensures r.pose.theta1 == StepAngle(p.theta1, goals.theta1, cfg.gain, cfg.sampleTime)
    ensures r.pose.theta2 == StepAngle(p.theta2, goals.theta2, cfg.gain, cfg.sampleTime)
    ensures r.indexError <==> AtGoal(m, cfg.geometry, r.pose.theta1, r.pose.theta2, p.destination) && cfg.pattern == Some([])
    ensures r.pose.destination == p.destination
         || (cfg.pattern.Some? && 1 <= r.pose.sequenceCount <= |cfg.pattern.value| && r.pose.destination == cfg.pattern.value[r.pose.sequenceCount - 1])
  {
    var t1 := StepAngle(p.theta1, goals.theta1, cfg.gain, cfg.sampleTime);
    var t2 := StepAngle(p.theta2, goals.theta2, cfg.gain, cfg.sampleTime);
    var moved := p.(theta1 := t1, theta2 := t2, previousDestination := p.destination);
    if !AtGoal(m, cfg.geometry, t1, t2, p.destination) then Stepped(moved, false)
    else match AdvanceCursor(cfg.pattern, p.sequenceCount)
      case NoPattern => Stepped(moved, false)
      case EmptyPattern => Stepped(moved.(sequenceCount := 0), true)
      case Next(w, k) => Stepped(moved.(destination := w, sequenceCount := k), false)
  }

  /** Away from the goal the destination and the cursor stay; at the goal
      the cursor makes exactly one `get_motion_sequence` move. */
  lemma ApproachAdvancesOnlyAtGoal(m: Trig, cfg: ArmConfig, p: Pose, goals: Goals)
    requires IsNumeric(p.destination)
    ensures var r := Approach(m, cfg, p, goals);
            if !AtGoal(m, cfg.geometry, r.pose.theta1, r.pose.theta2, p.destination) then
              r.pose.destination == p.destination && r.pose.sequenceCount == p.sequenceCount
            else match AdvanceCursor(cfg.pattern, p.sequenceCount)
              case NoPattern => r.pose.destination == p.destination && r.pose.sequenceCount == p.sequenceCount
              case EmptyPattern => r.pose.destination == p.destination && r.pose.sequenceCount == 0
              case Next(w, k) => r.pose.destination == w && r.pose.sequenceCount == k
  {
  }

  /** A solved tick keeps the invariant. */
  lemma ApproachKeepsInvariant(m: Trig, cfg: ArmConfig, p: Pose, goals: Goals)
    requires PoseInvariant(cfg, p) && IsNumeric(p.destination)
    ensures PoseInvariant(cfg, Approach(m, cfg, p, goals).pose)
  {
  }
}
