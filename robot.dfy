/** The current `RobotArm2` of the `pyrobomogen.robot` package: a two-joint
    arm that steps towards its destination on every `update` while its
    operation state is "start", falls back to the last solved destination
    when the target cannot be reached, walks a motion pattern of waypoints,
    and takes "start"/" stop" commands from control messages. */
module Robot {
  import opened Wrappers
  import opened Kinematics
  import opened MotionCursor
  import opened ArmStep
  import Strings

  /** One entry of the robot's `protocol.publishers` or
      `protocol.subscribers` list: its `type` and its exchange. */
  datatype ChannelConf = ChannelConf(kind: string, exchange: string)

  /** The keys of one robot entry of the configuration that the arm reads. */
  datatype RobotInfo = RobotInfo(
    id: string,
    proportionalGain: real,
    sampleRate: real,
    geometry: Geometry,
    base: Point,
    taskCoordinates: Option<seq<Coordinate>>,
    operationState: string,
    publishers: seq<ChannelConf>,
    subscribers: seq<ChannelConf>)

  /** Every channel is of type "amq"; any other type makes the
      constructor exit. */
  predicate AllAmq(channels: seq<ChannelConf>)
  {
    forall i :: 0 <= i < |channels| ==> channels[i].kind == "amq"
  }

  /** The arm's mutable fields: the pose and the operation state `control`. */
  datatype ArmState = ArmState(pose: Pose, control: string)

  /** `update_operation_state`: "start" starts the arm, only the literal
      " stop" (with its leading space) stops it, and every other command
      is logged and ignored. */
  function OperationState(control: string, command: string): (c: string)
    ensures c == control || c == "start" || c == "stop"
    ensures c != control ==> command == "start" || command == " stop"
  {
    if command == "start" then "start"
    else if command == " stop" then "stop"
    else control
  }

  /** The three command cases, spelled out: "stop" without the space is one
      of the ignored commands. */
  lemma OperationStateCommands(control: string, command: string)
    ensures OperationState(control, "start") == "start"
    ensures OperationState(control, " stop") == "stop"
    ensures OperationState(control, "stop") == control
    ensures command != "start" && command != " stop" ==> OperationState(control, command) == control
  {
  }

  /** Applying a command twice leaves the same state as applying it once. */
  lemma OperationStateIdempotent(control: string, command: string)
    ensures OperationState(OperationState(control, command), command) == OperationState(control, command)
  {
  }

  /** One `update` call. Outside "start" nothing changes. Otherwise a
      destination that cannot be solved (non-numeric, beyond reach, zero
      link length, cosine out of range) raises inside the `try`, and the
      handler puts the previous destination back. A solved destination
      moves both joints; an IndexError of the cursor on an empty pattern is
      caught by the same handler. */
  function Tick(m: Trig, cfg: ArmConfig, s: ArmState): (t: ArmState)
    ensures t.control == s.control
  {
    if s.control != "start" then s
    else match Solve(m, s.pose.destination, cfg.geometry)
      case Err(_) => s.(pose := s.pose.(destination := s.pose.previousDestination))
      case Ok(goals) =>
        var st := Approach(m, cfg, s.pose, goals);
        if st.indexError then s.(pose := st.pose.(destination := st.pose.previousDestination))
        else s.(pose := st.pose)
  }

  /** An arm that is not in "start" keeps every field. */
  lemma TickGate(m: Trig, cfg: ArmConfig, s: ArmState)
    requires s.control != "start"
    ensures Tick(m, cfg, s) == s
  {
  }

  /** An unreachable destination is replaced by the previous one; the
      angles, the previous destination and the cursor stay. */
  lemma TickRollback(m: Trig, cfg: ArmConfig, s: ArmState)
    requires s.control == "start"
    requires !Reachable(m, s.pose.destination, cfg.geometry)
    ensures var t := Tick(m, cfg, s);
            && t.pose.destination == s.pose.previousDestination
            && t.pose.theta1 == s.pose.theta1 && t.pose.theta2 == s.pose.theta2
            && t.pose.previousDestination == s.pose.previousDestination
            && t.pose.sequenceCount == s.pose.sequenceCount
            && t.control == s.control
  {
    SolveSucceedsIffReachable(m, s.pose.destination, cfg.geometry);
  }

  /** A reachable destination moves both joints by a proportional step
      towards the solved goal angles and becomes the previous destination;
      the new destination is the old one or the waypoint the cursor just
      moved to, so after an advance the previous destination is the waypoint
      just reached. */
  lemma TickSolved(m: Trig, cfg: ArmConfig, s: ArmState)
    requires s.control == "start"
    requires Reachable(m, s.pose.destination, cfg.geometry)
    ensures var t := Tick(m, cfg, s);
            var goals := Solve(m, s.pose.destination, cfg.geometry).value;
            && t.pose.previousDestination == s.pose.destination
            && t.pose.theta1 == StepAngle(s.pose.theta1, goals.theta1, cfg.gain, cfg.sampleTime)
            && t.pose.theta2 == StepAngle(s.pose.theta2, goals.theta2, cfg.gain, cfg.sampleTime)
            && (t.pose.destination == s.pose.destination
                || (cfg.pattern.Some? && 1 <= t.pose.sequenceCount <= |cfg.pattern.value|
                    && t.pose.destination == cfg.pattern.value[t.pose.sequenceCount - 1]))
  {
    SolveSucceedsIffReachable(m, s.pose.destination, cfg.geometry);
  }

  /** Every tick keeps the invariant; in particular the destination after a
      rollback is always a numeric one. */
  lemma TickKeepsInvariant(m: Trig, cfg: ArmConfig, s: ArmState)
    requires PoseInvariant(cfg, s.pose)
    ensures PoseInvariant(cfg, Tick(m, cfg, s).pose)
  {
    if s.control == "start" {
      var r := Solve(m, s.pose.destination, cfg.geometry);
      if r.Ok? {
        ApproachKeepsInvariant(m, cfg, s.pose, r.value);
      }
    }
  }

  /** The filter of `consume_control_msg` once a subscriber's exchange
      matched: the routing key mentions "control.robot", the body has both
      `id` and `control`, and the key's last `.`-segment equals both the
      body's id and the arm's id. */
  predicate Addressed(bindingName: string, body: map<string, string>, armId: string)
  {
    && Strings.Contains(bindingName, "control.robot")
    && "id" in body && "control" in body
    && Strings.LastSegment(bindingName) == body["id"]
    && Strings.LastSegment(bindingName) == armId
  }

  /** For a routing key `<prefix>.<id>` whose prefix mentions
      "control.robot", the arm with that id accepts exactly the bodies that
      carry both keys and name it; every other arm rejects the message. */
  lemma AddressedByRoutingKey(prefix: string, robotId: string, body: map<string, string>, armId: string)
    requires Strings.Contains(prefix, "control.robot")
    requires '.' !in robotId
    ensures Addressed(prefix + "." + robotId, body, armId) <==>
            "id" in body && "control" in body && body["id"] == robotId && armId == robotId
  {
    Strings.LastSegmentAfterDot(prefix, robotId);
    Strings.ContainsExtended(prefix, "." + robotId, "control.robot");
    assert prefix + "." + robotId == prefix + ("." + robotId);
  }

  class RobotArm2 {
    const id: string
    const proportionalGain: real
    const sampleTime: real
    const lengthShoulderToElbow: real
    const lengthElbowToGripper: real
    const base: Point
    const shoulder: Point
    const motionPattern: Option<seq<Coordinate>>
    const publishers: seq<ChannelConf>
    const subscribers: seq<ChannelConf>

    var theta1: real
    var theta2: real
    var destinationCoordinate: Coordinate
    var previousDestinationCoordinate: Coordinate
    var sequenceCount: nat
    var control: string

    function Config(): ArmConfig
    {
      ArmConfig(proportionalGain, sampleTime,
                Geometry(lengthShoulderToElbow, lengthElbowToGripper), motionPattern)
    }

    function Pose(): Pose
      reads this
    {
      ArmStep.Pose(theta1, theta2, destinationCoordinate, previousDestinationCoordinate, sequenceCount)
    }

    function State(): ArmState
      reads this
    {
      ArmState(Pose(), control)
    }

    predicate Valid()
      reads this
    {
      PoseInvariant(Config(), Pose())
    }

    /** The arm's constants are those of the configuration entry `info`;
        the shoulder is placed at the base. */
    predicate BuiltFrom(info: RobotInfo)
    {
      && id == info.id && proportionalGain == info.proportionalGain && sampleTime == info.sampleRate
      && lengthShoulderToElbow == info.geometry.shoulderToElbow
      && lengthElbowToGripper == info.geometry.elbowToGripper
      && base == info.base && shoulder == info.base
      && motionPattern == info.taskCoordinates
      && publishers == info.publishers && subscribers == info.subscribers
    }

    /** `__init__`: the configured values, both angles 0, destination and
        previous destination `[0, 0]`, cursor 0, and `control` from the
        configured operation state. The shoulder starts at the base. */
    constructor (info: RobotInfo)
      requires AllAmq(info.publishers) && AllAmq(info.subscribers)
      ensures Valid()
      ensures BuiltFrom(info)
      ensures State() == ArmState(InitialPose, info.operationState)
    {
      id := info.id;
      proportionalGain := info.proportionalGain;
      sampleTime := info.sampleRate;
      lengthShoulderToElbow := info.geometry.shoulderToElbow;
      lengthElbowToGripper := info.geometry.elbowToGripper;
      base := info.base;
      shoulder := info.base;
      motionPattern := info.taskCoordinates;
      publishers := info.publishers;
      subscribers := info.subscribers;
      theta1 := 0.0;
      theta2 := 0.0;
      destinationCoordinate := Origin;
      previousDestinationCoordinate := Origin;
      sequenceCount := 0;
      control := info.operationState;
    }

    method UpdateOperationState(state: string)
      modifies this`control
      ensures control == OperationState(old(control), state)
    {
      if state == "start" {
        control := "start";
      } else if state == " stop" {
        control := "stop";
      }
    }

    /** `get_motion_sequence`: with a pattern, wrap the count to 0 once it
        reaches the end, aim at that waypoint and count it. `raised` is the
        IndexError of an empty pattern, which leaves the count at 0. */
    method GetMotionSequence() returns (raised: bool)
      requires Valid()
      modifies this`destinationCoordinate, this`sequenceCount
      ensures Valid()
      ensures raised <==> motionPattern == Some([])
      ensures match AdvanceCursor(motionPattern, old(sequenceCount))
        case NoPattern => destinationCoordinate == old(destinationCoordinate) && sequenceCount == old(sequenceCount)
        case EmptyPattern => destinationCoordinate == old(destinationCoordinate) && sequenceCount == 0
        case Next(w, k) => destinationCoordinate == w && sequenceCount == k
    {
      raised := false;
      if motionPattern.Some? {
        if sequenceCount >= |motionPattern.value| {
          sequenceCount := 0;
        }
        if sequenceCount >= |motionPattern.value| {
          raised := true;
          return;
        }
        destinationCoordinate := motionPattern.value[sequenceCount];
        sequenceCount := sequenceCount + 1;
      }
    }

    /** `update`: one tick, as `Tick` specifies it. */
    method Update(m: Trig)
      requires Valid()
      modifies this
      ensures Valid()
      ensures State() == Tick(m, Config(), old(State()))
    {
      TickKeepsInvariant(m, Config(), State());
      if control == "start" {
        var solved := Solve(m, destinationCoordinate, Config().geometry);
        if solved.Err? {
          destinationCoordinate := previousDestinationCoordinate;
          return;
        }
        var goals := solved.value;
        theta1 := StepAngle(theta1, goals.theta1, proportionalGain, sampleTime);
        theta2 := StepAngle(theta2, goals.theta2, proportionalGain, sampleTime);
        previousDestinationCoordinate := destinationCoordinate;
        if AtGoal(m, Config().geometry, theta1, theta2, destinationCoordinate) {
          var raised := GetMotionSequence();
          if raised {
            destinationCoordinate := previousDestinationCoordinate;
          }
        }
      }
    }

    /** `consume_control_msg`: every subscriber on the message's exchange
        applies the filter; an addressed message hands its `control` value
        to `update_operation_state` (once per such subscriber, which is the
        same as once). */
    method ConsumeControlMsg(exchangeName: string, bindingName: string, body: map<string, string>)
      modifies this`control
      ensures control == if (exists i :: 0 <= i < |subscribers| && subscribers[i].exchange == exchangeName)
                                && Addressed(bindingName, body, id)
                         then OperationState(old(control), body["control"])
                         else old(control)
    {
      for i := 0 to |subscribers|
        invariant control == if (exists j :: 0 <= j < i && subscribers[j].exchange == exchangeName)
                                   && Addressed(bindingName, body, id)
                             then OperationState(old(control), body["control"])
                             else old(control)
      {
        if subscribers[i].exchange == exchangeName {
          if Strings.Contains(bindingName, "control.robot") {
            var parts := Strings.Split(bindingName, ".");
            var robotId := parts[|parts| - 1];
            if "id" in body && "control" in body {
              if robotId == body["id"] && robotId == id {
                OperationStateIdempotent(old(control), body["control"]);
                UpdateOperationState(body["control"]);
              }
            }
          }
        }
      }
    }
  }

  /** Construction from a robot entry: an entry with a publisher or
      subscriber of a type other than "amq" makes `__init__` exit. */
  method NewRobotArm(info: RobotInfo) returns (arm: Option<RobotArm2>)
    ensures arm.Some? <==> AllAmq(info.publishers) && AllAmq(info.subscribers)
    ensures arm.Some? ==> fresh(arm.value) && arm.value.Valid() && arm.value.BuiltFrom(info)
    ensures arm.Some? ==> arm.value.State() == ArmState(InitialPose, info.operationState)
  {
    if AllAmq(info.publishers) && AllAmq(info.subscribers) {
      var a := new RobotArm2(info);
      arm := Some(a);
    } else {
      arm := None;
    }
  }
}
