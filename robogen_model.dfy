/** The `RobotArm2` of the `RoboGen` package: it finds its own entry in the
    whole configuration, and its waypoints are the `position` of each
    pattern entry. */
module RoboGenModel {
  import opened Wrappers
  import opened Kinematics
  import opened MotionCursor
  import opened ArmStep
  import opened LegacyArm
  import opened ConfigLookup

  class RobotArm2 {
    const id: string
    const proportionalGain: real
    const sampleTime: real
    const lengthShoulderToElbow: real
    const lengthElbowToGripper: real
    const shoulder: Point
    /** The `position` of every entry of the matching sequence, or None. */
    const motionPattern: Option<seq<Coordinate>>

    var theta1: real
    var theta2: real
    var destinationCoordinate: Coordinate
    var previousDestinationCoordinate: Coordinate
    var sequenceCount: nat

    function Config(): ArmConfig
    {
      ArmConfig(proportionalGain, sampleTime,
                Geometry(lengthShoulderToElbow, lengthElbowToGripper), motionPattern)
    }

    function Pose(): Pose
      reads this
    {
      ArmStep.Pose(theta1, theta2, destinationCoordinate, previousDestinationCoordinate, sequenceCount)
    }

    predicate Valid()
      reads this
    {
      PoseInvariant(Config(), Pose())
    }

    /** The fields `__init__` sets once the entry and the pattern are found. */
    constructor (info: RobotConf, pattern: Option<seq<Coordinate>>)
      ensures Valid()
      ensures id == info.id && proportionalGain == info.proportionalGain && sampleTime == info.sampleRate
      ensures lengthShoulderToElbow == info.geometry.shoulderToElbow
      ensures lengthElbowToGripper == info.geometry.elbowToGripper
      ensures shoulder == info.shoulder && motionPattern == pattern
      ensures Pose() == InitialPose
    {
      id := info.id;
      proportionalGain := info.proportionalGain;
      sampleTime := info.sampleRate;
      lengthShoulderToElbow := info.geometry.shoulderToElbow;
      lengthElbowToGripper := info.geometry.elbowToGripper;
      shoulder := info.shoulder;
      motionPattern := pattern;
      theta1 := 0.0;
      theta2 := 0.0;
      destinationCoordinate := Origin;
      previousDestinationCoordinate := Origin;
      sequenceCount := 0;
    }

    /** `get_motion_sequence`, with the IndexError of an empty pattern as
        `raised`; the count is already 0 when it is raised. */
    method GetMotionSequence() returns (raised: bool)
      requires Valid()
      modifies this`destinationCoordinate, this`sequenceCount
      ensures Valid()
      ensures raised <==> motionPattern == Some([])
      ensures match AdvanceCursor(motionPattern, old(sequenceCount))
        case NoPattern => destinationCoordinate == old(destinationCoordinate) && sequenceCount == old(sequenceCount)
        case EmptyPattern => destinationCoordinate == old(destinationCoordinate) && sequenceCount == 0
        case Next(w, k) => destinationCoordinate == w && sequenceCount == k
    {
      raised := false;
      if motionPattern.Some? {
        if sequenceCount >= |motionPattern.value| {
          sequenceCount := 0;
        }
        if sequenceCount >= |motionPattern.value| {
          raised := true;
          return;
        }
        destinationCoordinate := motionPattern.value[sequenceCount];
        sequenceCount := sequenceCount + 1;
      }
    }

    /** `update`: one tick, as `LegacyTick` specifies it; `outcome` says how
        the call ended. */
    method Update(m: Trig) returns (outcome: LegacyOutcome)
      requires Valid()
      modifies this
      ensures Valid()
      ensures Pose() == LegacyTick(m, Config(), old(Pose())).pose
      ensures outcome == LegacyTick(m, Config(), old(Pose())).outcome
    {
      LegacyTickKeepsInvariant(m, Config(), Pose());
      var solved := Solve(m, destinationCoordinate, Config().geometry);
      match solved
      case Err(e) =>
        if e == NonNumericCoordinate {
          outcome := Exited;
        } else if e == ZeroLengthLink {
          outcome := Raised(ZeroDivisionError);
        } else {
          destinationCoordinate := previousDestinationCoordinate;
          outcome := RolledBack;
        }
      case Ok(goals) =>
        theta1 := StepAngle(theta1, goals.theta1, proportionalGain, sampleTime);
        theta2 := StepAngle(theta2, goals.theta2, proportionalGain, sampleTime);
        previousDestinationCoordinate := destinationCoordinate;
        outcome := Completed;
        if AtGoal(m, Config().geometry, theta1, theta2, destinationCoordinate) {
          var raised := GetMotionSequence();
          if raised {
            outcome := Raised(IndexError);
          }
        }
    }
  }

  /** `__init__`: the first robot entry with the id and the last sequence
      named by its pattern; a missing id fails the assertion and the
      process exits (None). */
  method NewRobotArm(robots: seq<RobotConf>, sequences: seq<SequenceConf>, robotId: string)
    returns (arm: Option<RobotArm2>)
    ensures arm.None? <==> forall i :: 0 <= i < |robots| ==> robots[i].id != robotId
    ensures arm.Some? ==> fresh(arm.value) && arm.value.Valid() && arm.value.Pose() == InitialPose
    ensures arm.Some? ==> exists info ::
      && IsFirstRobot(robots, robotId, info)
      && IsLastPattern(sequences, info.patternName, arm.value.motionPattern)
      && arm.value.id == info.id && arm.value.proportionalGain == info.proportionalGain
      && arm.value.sampleTime == info.sampleRate && arm.value.shoulder == info.shoulder
      && arm.value.lengthShoulderToElbow == info.geometry.shoulderToElbow
      && arm.value.lengthElbowToGripper == info.geometry.elbowToGripper
  {
    var info := FindRobot(robots, robotId);
    if info.None? {
      return None;
    }
    var pattern := FindPattern(sequences, info.value.patternName);
    var a := new RobotArm2(info.value, pattern);
    arm := Some(a);
  }
}
