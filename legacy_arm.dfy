/** The `update` tick of the two older `RobotArm2` copies (the `RoboGen`
    package and the top-level module). They have no operation state, so
    every call attempts a step, and their handler is narrower than the
    current one: only the two "Coordinates cannot be reached" RuntimeErrors
    roll the destination back; a TypeError or ValueError ends the process,
    and every other exception leaves `update` with the fields as they were
    when it was raised. */
module LegacyArm {
  import opened Wrappers
  import opened Kinematics
  import opened MotionCursor
  import opened ArmStep

  /** Exceptions no handler of `update` catches. */
  datatype Uncaught = ZeroDivisionError | IndexError

  /** How an `update` call ends. */
  datatype LegacyOutcome =
    | Completed                  // the step ran to the end
    | RolledBack                 // a RuntimeError was caught: destination := previous destination
    | Exited                     // a TypeError was caught and `exit(-1)` called
    | Raised(error: Uncaught)    // the exception propagates to the caller

  datatype LegacyResult = LegacyResult(pose: Pose, outcome: LegacyOutcome)

  /** One `update` call of the older copies. */
  function LegacyTick(m: Trig, cfg: ArmConfig, p: Pose): (r: LegacyResult)
    ensures r.outcome.Completed? || r.outcome == Raised(IndexError) <==> Reachable(m, p.destination, cfg.geometry)
  {
    match Solve(m, p.destination, cfg.geometry)
    case Err(NonNumericCoordinate) => LegacyResult(p, Exited)
    case Err(OutOfReach) => LegacyResult(p.(destination := p.previousDestination), RolledBack)
    case Err(CosineOutOfRange) => LegacyResult(p.(destination := p.previousDestination), RolledBack)
    case Err(ZeroLengthLink) => LegacyResult(p, Raised(ZeroDivisionError))
    case Ok(goals) =>
      var st := Approach(m, cfg, p, goals);
      LegacyResult(st.pose, if st.indexError then Raised(IndexError) else Completed)
  }

  /** Only the two reachability failures roll back, and a rollback puts the
      previous destination back and leaves angles, previous destination and
      cursor as they were. */
  lemma LegacyRollbackOnlyOnRuntimeError(m: Trig, cfg: ArmConfig, p: Pose)
    ensures var r := LegacyTick(m, cfg, p);
            r.outcome == RolledBack <==>
              Solve(m, p.destination, cfg.geometry) in {Err(OutOfReach), Err(CosineOutOfRange)}
    ensures var r := LegacyTick(m, cfg, p);
            r.outcome == RolledBack ==> r.pose == p.(destination := p.previousDestination)
  {
  }

  /** A non-numeric destination ends the process, and a zero link length
      escapes the handler; neither touches the fields. */
  lemma LegacyTerminatingErrors(m: Trig, cfg: ArmConfig, p: Pose)
    ensures !IsNumeric(p.destination) ==> LegacyTick(m, cfg, p) == LegacyResult(p, Exited)
    ensures IsNumeric(p.destination)
            && m.sqrt(SquaredNorm(p.destination.x.value, p.destination.y.value)) <= cfg.geometry.shoulderToElbow + cfg.geometry.elbowToGripper
            && 2.0 * cfg.geometry.shoulderToElbow * cfg.geometry.elbowToGripper == 0.0
            ==> LegacyTick(m, cfg, p) == LegacyResult(p, Raised(ZeroDivisionError))
  {
  }

  /** A solved tick sets the previous destination to the destination aimed
      at before the goal check can advance the cursor; it completes unless
      the cursor hits an empty pattern, and then the count has already been
      reset to 0. */
  lemma LegacySolved(m: Trig, cfg: ArmConfig, p: Pose)
    requires Reachable(m, p.destination, cfg.geometry)
    ensures var r := LegacyTick(m, cfg, p);
            var goals := Solve(m, p.destination, cfg.geometry).value;
            && r.pose.previousDestination == p.destination
            && r.pose.theta1 == StepAngle(p.theta1, goals.theta1, cfg.gain, cfg.sampleTime)
            && r.pose.theta2 == StepAngle(p.theta2, goals.theta2, cfg.gain, cfg.sampleTime)
            && (r.outcome == Raised(IndexError) ==> cfg.pattern == Some([]) && r.pose.sequenceCount == 0)
  {
    SolveSucceedsIffReachable(m, p.destination, cfg.geometry);
  }

  /** Every tick that does not end the process keeps the invariant. */
  lemma LegacyTickKeepsInvariant(m: Trig, cfg: ArmConfig, p: Pose)
    requires PoseInvariant(cfg, p)
    ensures PoseInvariant(cfg, LegacyTick(m, cfg, p).pose)
  {
    var s := Solve(m, p.destination, cfg.geometry);
    if s.Ok? {
      ApproachKeepsInvariant(m, cfg, p, s.value);
    }
  }
}
