/** The workspace `WSRobots`: it builds one `RobotArm2` per configured
    robot and stores a snapshot of each under `robot_<id>`, routes control
    messages to the first arm with the message's id, dispatches incoming
    messages to the handler each subscriber names, and on every tick
    updates all arms in order and publishes the results of the started
    ones. */
module Workspace {
  import opened Wrappers
  import opened Kinematics
  import opened ArmStep
  import Robot

  /** A subscriber of the workspace: its `type`, its exchange, and the name
      of the handler its callback resolves to (None when it names none). */
  datatype SubscriberConf = SubscriberConf(kind: string, exchange: string, handlerName: Option<string>)

  datatype Protocol = Protocol(publishers: seq<Robot.ChannelConf>, subscribers: seq<SubscriberConf>)

  /** The keys of the workspace configuration that `__init__` reads. */
  datatype WsConfig = WsConfig(sampleInterval: real, protocol: Option<Protocol>, robots: seq<Robot.RobotInfo>)

  /** The snapshot stored for each arm. */
  datatype StateInformation = StateInformation(
    base: Point, shoulder: Point, lengthShoulderToElbow: real, lengthElbowToGripper: real)

  /** Why construction fails: no `protocol` key (exit), a workspace channel
      that is not "amq" (AssertionError), or a robot whose own channels make
      its constructor exit. */
  datatype BuildError = NoProtocol | NonAmqChannel | RobotExit(index: nat)

  /** One message handed to `publish`: the exchange and the arm whose
      result it carries. */
  datatype Publication = Publication(exchange: string, robot: nat)

  /** What a subscriber's handler name resolves to with `getattr` on the
      workspace. */
  datatype Handler =
    | ControlHandler    // `robot_control_msg_handler`
    | NotAHandler       // another attribute: calling it with the message raises
    | Unresolved        // no such attribute (logged), or one that is None: skipped

  /** The attributes a `WSRobots` defines other than the control handler. */
  const OtherAttributes: set<string> := {
    "publishers", "subscribers", "robots_in_ws", "update_interval", "redis_db",
    "publish", "connect", "consume_control_msg", "update", "remove"}

  /** The attributes every instance of a class inherits or is given by
      Python, apart from `__doc__` and `__weakref__`, which are None on a
      `WSRobots`. None of them accepts the handler's keyword arguments. */
  const InheritedAttributes: set<string> := {
    "__class__", "__delattr__", "__dict__", "__dir__", "__eq__", "__format__",
    "__ge__", "__getattribute__", "__getstate__", "__gt__", "__hash__", "__init__",
    "__init_subclass__", "__le__", "__lt__", "__module__", "__ne__", "__new__",
    "__reduce__", "__reduce_ex__", "__repr__", "__setattr__", "__sizeof__",
    "__str__", "__subclasshook__"}

  function Resolve(name: string): (h: Handler)
    ensures h == ControlHandler <==> name == "robot_control_msg_handler"
    ensures h == NotAHandler <==> name in OtherAttributes || name in InheritedAttributes
    ensures h == Unresolved <==>
              name != "robot_control_msg_handler" && name !in OtherAttributes && name !in InheritedAttributes
  {
    if name == "robot_control_msg_handler" then ControlHandler
    else if name in OtherAttributes || name in InheritedAttributes then NotAHandler
    else Unresolved
  }

  /** The first index whose id is `id`, if any. */
  function FirstWithId(ids: seq<string>, id: string): (r: Option<nat>)
    ensures r.None? <==> forall i :: 0 <= i < |ids| ==> ids[i] != id
    ensures r.Some? ==> r.value < |ids| && ids[r.value] == id
                        && forall j :: 0 <= j < r.value ==> ids[j] != id
    decreases |ids|
  {
    if |ids| == 0 then None
    else if ids[0] == id then Some(0)
    else
      var r := FirstWithId(ids[1..], id);
      if r.None? then None
      else
        assert forall j :: 1 <= j < |ids| ==> ids[j] == ids[1..][j - 1];
        Some(r.value + 1)
  }

  /** Where `robot_control_msg_handler` sends a body: nowhere unless it has
      both `id` and `control`, and then to the first arm with that id. */
  function RouteControl(ids: seq<string>, body: map<string, string>): Option<nat>
  {
    if "id" in body && "control" in body then FirstWithId(ids, body["id"]) else None
  }

  /** The deliveries `consume_control_msg` makes, subscriber by subscriber:
      one routing decision per subscriber whose handler is the control
      handler; a subscriber without a handler name or with an unresolved
      one is skipped; another attribute raises and ends the loop
      (`raised`). */
  function ConsumePlan(subscribers: seq<SubscriberConf>, ids: seq<string>, body: map<string, string>)
    : (r: (seq<Option<nat>>, bool))
    decreases |subscribers|
  {
    if |subscribers| == 0 then ([], false)
    else
      var rest := ConsumePlan(subscribers[1..], ids, body);
      match subscribers[0].handlerName
      case None => rest
      case Some(name) =>
        match Resolve(name)
        case Unresolved => rest
        case NotAHandler => ([], true)
        case ControlHandler => ([RouteControl(ids, body)] + rest.0, rest.1)
  }

  /** Every delivery of a message goes to the same single arm: the first
      whose id is the message's id, and none when the body lacks `id` or
      `control` or no arm has that id. */
  lemma {:induction false} ConsumeDeliversToFirstMatch(
    subscribers: seq<SubscriberConf>, ids: seq<string>, body: map<string, string>)
    ensures forall k :: 0 <= k < |ConsumePlan(subscribers, ids, body).0| ==>
              ConsumePlan(subscribers, ids, body).0[k] == RouteControl(ids, body)
    ensures RouteControl(ids, body).Some? ==>
              var i := RouteControl(ids, body).value;
              i < |ids| && ids[i] == body["id"] && forall j :: 0 <= j < i ==> ids[j] != body["id"]
    ensures RouteControl(ids, body).None? <==>
              !("id" in body && "control" in body) || forall i :: 0 <= i < |ids| ==> ids[i] != body["id"]
    decreases |subscribers|
  {
    if |subscribers| > 0 {
      ConsumeDeliversToFirstMatch(subscribers[1..], ids, body);
      var rest := ConsumePlan(subscribers[1..], ids, body);
      var r := ConsumePlan(subscribers, ids, body);
      if subscribers[0].handlerName.Some? && Resolve(subscribers[0].handlerName.value) == ControlHandler {
        assert r.0 == [RouteControl(ids, body)] + rest.0;
        forall k | 0 <= k < |r.0|
          ensures r.0[k] == RouteControl(ids, body)
        {
          if k > 0 {
            assert r.0[k] == rest.0[k - 1];
          }
        }
      }
    }
  }

  /** The subscribers of `a` and then those of `b`: once `a` raises, `b`
      is never visited; otherwise the deliveries of `b` follow those of
      `a`. */
  lemma {:induction false} ConsumePlanAppend(a: seq<SubscriberConf>, b: seq<SubscriberConf>, ids: seq<string>, body: map<string, string>)
    ensures var pa := ConsumePlan(a, ids, body);
            var pb := ConsumePlan(b, ids, body);
            ConsumePlan(a + b, ids, body) == if pa.1 then pa else (pa.0 + pb.0, pb.1)
    decreases |a|
  {
    if |a| > 0 {
      assert (a + b)[0] == a[0] && (a + b)[1..] == a[1..] + b;
      ConsumePlanAppend(a[1..], b, ids, body);
      var ra := ConsumePlan(a[1..], ids, body);
      var pb := ConsumePlan(b, ids, body);
      if a[0].handlerName.Some? && Resolve(a[0].handlerName.value) == ControlHandler && !ra.1 {
        var d := RouteControl(ids, body);
        assert [d] + (ra.0 + pb.0) == ([d] + ra.0) + pb.0;
      }
    } else {
      var pb := ConsumePlan(b, ids, body);
      assert a + b == b && ConsumePlan(a, ids, body) == ([], false);
      assert [] + pb.0 == pb.0;
    }
  }

  /** A subscriber whose handler name does not resolve is skipped and the
      loop goes on with the next one. */
  lemma UnresolvedSkipped(s: SubscriberConf, subscribers: seq<SubscriberConf>, ids: seq<string>, body: map<string, string>)
    requires s.handlerName.Some? && Resolve(s.handlerName.value) == Unresolved
    ensures ConsumePlan([s] + subscribers, ids, body) == ConsumePlan(subscribers, ids, body)
  {
    assert ([s] + subscribers)[1..] == subscribers;
  }

  /** A subscriber naming an attribute every object has, such as
      `__init__`, makes the call raise and ends the loop with no delivery. */
  lemma InheritedAttributeRaises(s: SubscriberConf, subscribers: seq<SubscriberConf>, ids: seq<string>, body: map<string, string>)
    requires s.handlerName.Some? && s.handlerName.value in InheritedAttributes
    ensures ConsumePlan([s] + subscribers, ids, body) == ([], true)
  {
  }

  /** With only control-handler subscribers, each one delivers once and
      nothing raises. */
  lemma {:induction false} AllControlHandlers(subscribers: seq<SubscriberConf>, ids: seq<string>, body: map<string, string>)
    requires forall i :: 0 <= i < |subscribers| ==> subscribers[i].handlerName == Some("robot_control_msg_handler")
    ensures var r := ConsumePlan(subscribers, ids, body);
            |r.0| == |subscribers| && !r.1
    decreases |subscribers|
  {
    if |subscribers| > 0 {
      AllControlHandlers(subscribers[1..], ids, body);
    }
  }

  /** The publications of one workspace tick for arms `from`, `from + 1`,
      ... with operation states `controls`: the generator result then the
      visual result of each arm in "start" whose results are both ready. */
  function PublishPlan(controls: seq<string>, ready: set<nat>, from: nat): seq<Publication>
    decreases |controls|
  {
    if |controls| == 0 then []
    else ArmPublications(controls[0], from in ready, from) + PublishPlan(controls[1..], ready, from + 1)
  }

  /** What the tick publishes for arm `k`: its generator result and then
      its visual result when it is in "start" and both are ready. */
  function ArmPublications(control: string, ready: bool, k: nat): (ps: seq<Publication>)
  {
    if control == "start" && ready
    then [Publication("generator_robot", k), Publication("visual", k)]
    else []
  }

  /** The plan from arm `k` on is arm `k`'s publications, then the rest. */
  lemma PublishPlanStep(cs: seq<string>, ready: set<nat>, k: nat)
    requires k < |cs|
    ensures PublishPlan(cs[k..], ready, k) == ArmPublications(cs[k], k in ready, k) + PublishPlan(cs[k + 1..], ready, k + 1)
  {
    assert cs[k..][1..] == cs[k + 1..];
  }

  /** The plan of two runs of arms is the plan of the first followed by the
      plan of the second. */
  lemma {:induction false} PublishPlanAppend(a: seq<string>, b: seq<string>, ready: set<nat>, from: nat)
    ensures PublishPlan(a + b, ready, from) == PublishPlan(a, ready, from) + PublishPlan(b, ready, from + |a|)
    decreases |a|
  {
    if |a| > 0 {
      assert (a + b)[1..] == a[1..] + b;
      PublishPlanAppend(a[1..], b, ready, from + 1);
    } else {
      assert a + b == b;
    }
  }

  /** The loop of `update` extends the plan of arms `0 .. k - 1` by arm
      `k`'s publications. */
  lemma PublishPlanSnoc(cs: seq<string>, ready: set<nat>, k: nat)
    requires k < |cs|
    ensures PublishPlan(cs[..k + 1], ready, 0) == PublishPlan(cs[..k], ready, 0) + ArmPublications(cs[k], k in ready, k)
  {
    assert cs[..k + 1] == cs[..k] + [cs[k]];
    PublishPlanAppend(cs[..k], [cs[k]], ready, 0);
    assert [cs[k]][1..] == [];
  }

  /** A publication is made exactly for the arms in "start" with ready
      results, to the generator and the visual exchange. */
  lemma {:induction false} PublishPlanMembers(controls: seq<string>, ready: set<nat>, from: nat, p: Publication)
    ensures p in PublishPlan(controls, ready, from) <==>
            && (p.exchange == "generator_robot" || p.exchange == "visual")
            && from <= p.robot < from + |controls|
            && controls[p.robot - from] == "start" && p.robot in ready
    decreases |controls|
  {
    if |controls| > 0 {
      PublishPlanMembers(controls[1..], ready, from + 1, p);
      var head := ArmPublications(controls[0], from in ready, from);
      var rest := PublishPlan(controls[1..], ready, from + 1);
      assert p in head + rest <==> p in head || p in rest;
      assert p in head <==> (p.exchange == "generator_robot" || p.exchange == "visual")
                            && p.robot == from && controls[0] == "start" && from in ready;
      if from < p.robot < from + |controls| {
        assert controls[p.robot - from] == controls[1..][p.robot - (from + 1)];
      }
    }
  }

  /** Publications `2j` and `2j + 1` are the generator result and then the
      visual result of one arm. */
  predicate PairAt(plan: seq<Publication>, j: nat)
    requires 2 * j + 1 < |plan|
  {
    plan[2 * j].exchange == "generator_robot" && plan[2 * j + 1].exchange == "visual"
    && plan[2 * j].robot == plan[2 * j + 1].robot
  }

  /** A sequence of publications made of generator/visual pairs. */
  predicate InPairs(plan: seq<Publication>)
  {
    |plan| % 2 == 0 && forall j :: 0 <= j < |plan| / 2 ==> PairAt(plan, j)
  }

  /** A sequence of publications whose arms never go down and start at `from`. */
  predicate ArmsInOrder(plan: seq<Publication>, from: nat)
  {
    && (forall j, k :: 0 <= j < k < |plan| ==> plan[j].robot <= plan[k].robot)
    && (forall j :: 0 <= j < |plan| ==> from <= plan[j].robot)
  }

  /** The plan comes in pairs, generator first and then visual for the same
      arm. */
  lemma {:induction false} PublishPlanPairs(controls: seq<string>, ready: set<nat>, from: nat)
    ensures InPairs(PublishPlan(controls, ready, from))
    decreases |controls|
  {
    if |controls| > 0 {
      PublishPlanPairs(controls[1..], ready, from + 1);
      var rest := PublishPlan(controls[1..], ready, from + 1);
      var head := ArmPublications(controls[0], from in ready, from);
      var plan := head + rest;
      assert PublishPlan(controls, ready, from) == plan;
      if head != [] {
        forall j | 0 <= j < |plan| / 2
          ensures PairAt(plan, j)
        {
          if j > 0 {
            assert PairAt(rest, j - 1);
            assert plan[2 * j] == rest[2 * (j - 1)];
            assert plan[2 * j + 1] == rest[2 * (j - 1) + 1];
          }
        }
      } else {
        assert plan == rest;
      }
    }
  }

  /** The plan follows the order of the arms. */
  lemma {:induction false} PublishPlanInArmOrder(controls: seq<string>, ready: set<nat>, from: nat)
    ensures ArmsInOrder(PublishPlan(controls, ready, from), from)
    decreases |controls|
  {
    if |controls| > 0 {
      PublishPlanInArmOrder(controls[1..], ready, from + 1);
      var rest := PublishPlan(controls[1..], ready, from + 1);
      var head := ArmPublications(controls[0], from in ready, from);
      var plan := head + rest;
      assert PublishPlan(controls, ready, from) == plan;
      forall j | 0 <= j < |plan|
        ensures from <= plan[j].robot
      {
        if j >= |head| {
          assert plan[j] == rest[j - |head|];
        }
      }
      forall j, k | 0 <= j < k < |plan|
        ensures plan[j].robot <= plan[k].robot
      {
        if k >= |head| {
          assert plan[k] == rest[k - |head|];
          if j >= |head| {
            assert plan[j] == rest[j - |head|];
          }
        }
      }
    }
  }

  /** Every channel of a robot entry is of type "amq". */
  predicate RobotChannelsAmq(info: Robot.RobotInfo)
  {
    Robot.AllAmq(info.publishers) && Robot.AllAmq(info.subscribers)
  }

  /** Every publisher and subscriber of the workspace is of type "amq". */
  predicate WsChannelsAmq(p: Protocol)
  {
    Robot.AllAmq(p.publishers) && forall i :: 0 <= i < |p.subscribers| ==> p.subscribers[i].kind == "amq"
  }

  predicate Buildable(config: WsConfig)
  {
    && config.protocol.Some?
    && WsChannelsAmq(config.protocol.value)
    && (forall i :: 0 <= i < |config.robots| ==> RobotChannelsAmq(config.robots[i]))
  }

  /** The snapshot `__init__` stores for a robot entry: its key
      `robot_<id>`, and the base, shoulder and both lengths of the arm built
      from it (the shoulder starts at the base). */
  function Snapshot(info: Robot.RobotInfo): (w: (string, StateInformation))
    ensures w.0 == "robot_" + info.id
    ensures w.1.shoulder == w.1.base == info.base
    ensures w.1.lengthShoulderToElbow == info.geometry.shoulderToElbow
    ensures w.1.lengthElbowToGripper == info.geometry.elbowToGripper
  {
    ("robot_" + info.id,
     StateInformation(info.base, info.base, info.geometry.shoulderToElbow, info.geometry.elbowToGripper))
  }

  /** The ids of the robot entries, in configuration order. */
  function EntryIds(robots: seq<Robot.RobotInfo>): (ids: seq<string>)
    ensures |ids| == |robots| && forall i :: 0 <= i < |robots| ==> ids[i] == robots[i].id
  {
    seq(|robots|, i requires 0 <= i < |robots| => robots[i].id)
  }

  class WSRobots {
    const updateInterval: real
    const publishers: seq<Robot.ChannelConf>
    const subscribers: seq<SubscriberConf>
    var robotsInWs: seq<Robot.RobotArm2>
    /** The `set` calls made on the in-memory database, in order. */
    var dbWrites: seq<(string, StateInformation)>

    ghost predicate Valid()
      reads this, set r | r in robotsInWs
    {
      && (forall i, j :: 0 <= i < j < |robotsInWs| ==> robotsInWs[i] != robotsInWs[j])
      && (forall i :: 0 <= i < |robotsInWs| ==> robotsInWs[i].Valid())
    }

    function Ids(): (ids: seq<string>)
      reads this
      ensures |ids| == |robotsInWs| && forall i :: 0 <= i < |ids| ==> ids[i] == robotsInWs[i].id
    {
      seq(|robotsInWs|, i requires 0 <= i < |robotsInWs| reads this => robotsInWs[i].id)
    }

    function Controls(): (controls: seq<string>)
      reads this, set r | r in robotsInWs
      ensures |controls| == |robotsInWs| && forall i :: 0 <= i < |controls| ==> controls[i] == robotsInWs[i].control
    {
      seq(|robotsInWs|, i requires 0 <= i < |robotsInWs| reads this, set r | r in robotsInWs => robotsInWs[i].control)
    }

    ghost function States(): (states: seq<Robot.ArmState>)
      reads this, set r | r in robotsInWs
      ensures |states| == |robotsInWs| && forall i :: 0 <= i < |states| ==> states[i] == robotsInWs[i].State()
    {
      seq(|robotsInWs|, i requires 0 <= i < |robotsInWs| reads this, set r | r in robotsInWs => robotsInWs[i].State())
    }

    /** The workspace as `__init__` leaves it for `config`: its interval
        and channels, arm `i` built from robot entry `i` and in its initial
        state, and write `i` the snapshot of entry `i`. */
    ghost predicate BuiltFrom(config: WsConfig)
      reads this, set r | r in robotsInWs
    {
      && config.protocol.Some?
      && updateInterval == config.sampleInterval
      && publishers == config.protocol.value.publishers && subscribers == config.protocol.value.subscribers
      && |robotsInWs| == |config.robots| && |dbWrites| == |config.robots|
      && (forall i :: 0 <= i < |robotsInWs| ==>
            && robotsInWs[i].BuiltFrom(config.robots[i])
            && robotsInWs[i].State() == Robot.ArmState(InitialPose, config.robots[i].operationState))
      && (forall i :: 0 <= i < |dbWrites| ==> dbWrites[i] == Snapshot(config.robots[i]))
    }

    /** In a workspace just built from `config`, a control message goes to
        the first robot entry of the configuration with the message's id,
        and every arm has its entry's operation state. */
    lemma BuiltRoutesByConfiguration(config: WsConfig, body: map<string, string>)
      requires BuiltFrom(config)
      ensures RouteControl(Ids(), body) == RouteControl(EntryIds(config.robots), body)
      ensures forall i :: 0 <= i < |robotsInWs| ==> Controls()[i] == config.robots[i].operationState
    {
      assert Ids() == EntryIds(config.robots);
    }

    /** `__init__`: one arm per robot entry, in configuration order, each
        with its snapshot stored under `robot_<id>`. */
    constructor (config: WsConfig)
      requires Buildable(config)
      ensures Valid() && BuiltFrom(config)
      ensures forall i :: 0 <= i < |robotsInWs| ==> fresh(robotsInWs[i])
    {
      updateInterval := config.sampleInterval;
      publishers := config.protocol.value.publishers;
      subscribers := config.protocol.value.subscribers;
      robotsInWs := [];
      dbWrites := [];
      new;
      for k := 0 to |config.robots|
        invariant |robotsInWs| == k && |dbWrites| == k
        invariant forall i, j :: 0 <= i < j < k ==> robotsInWs[i] != robotsInWs[j]
        invariant forall i :: 0 <= i < k ==>
                    && fresh(robotsInWs[i]) && robotsInWs[i].Valid()
                    && robotsInWs[i].BuiltFrom(config.robots[i])
                    && robotsInWs[i].State() == Robot.ArmState(InitialPose, config.robots[i].operationState)
        invariant forall i :: 0 <= i < k ==> dbWrites[i] == Snapshot(config.robots[i])
      {
        var robo := new Robot.RobotArm2(config.robots[k]);
        var info := StateInformation(robo.base, robo.shoulder, robo.lengthShoulderToElbow, robo.lengthElbowToGripper);
        dbWrites := dbWrites + [("robot_" + robo.id, info)];
        robotsInWs := robotsInWs + [robo];
      }
    }

    /** `robot_control_msg_handler`: the arm the body is handed to. */
    method RobotControlMsgHandler(body: map<string, string>) returns (target: Option<nat>)
      ensures target == RouteControl(Ids(), body)
      ensures target.Some? ==> target.value < |robotsInWs| && robotsInWs[target.value].id == body["id"]
                               && forall j :: 0 <= j < target.value ==> robotsInWs[j].id != body["id"]
    {
      target := None;
      if "id" in body && "control" in body {
        var i := 0;
        while i < |robotsInWs|
          invariant 0 <= i <= |robotsInWs|
          invariant forall j :: 0 <= j < i ==> robotsInWs[j].id != body["id"]
        {
          if robotsInWs[i].id == body["id"] {
            target := Some(i);
            break;
          }
          i := i + 1;
        }
      }
    }

    /** `consume_control_msg`: the subscribers are visited in order and the
        message goes to the handler each one names; a handler that raises
        ends the visit. */
    method ConsumeControlMsg(body: map<string, string>) returns (deliveries: seq<Option<nat>>, raised: bool)
      ensures (deliveries, raised) == ConsumePlan(subscribers, Ids(), body)
    {
      deliveries := [];
      raised := false;
      for i := 0 to |subscribers|
        invariant deliveries == ConsumePlan(subscribers[..i], Ids(), body).0
        invariant !ConsumePlan(subscribers[..i], Ids(), body).1
      {
        assert subscribers[..i + 1] == subscribers[..i] + [subscribers[i]];
        ConsumePlanAppend(subscribers[..i], [subscribers[i]], Ids(), body);
        assert [subscribers[i]][1..] == [];
        var name := subscribers[i].handlerName;
        if name.Some? {
          var h := Resolve(name.value);
          if h == NotAHandler {
            raised := true;
            assert deliveries + [] == deliveries;
            assert ConsumePlan(subscribers[..i + 1], Ids(), body) == (deliveries, true);
            assert subscribers == subscribers[..i + 1] + subscribers[i + 1..];
            ConsumePlanAppend(subscribers[..i + 1], subscribers[i + 1..], Ids(), body);
            return;
          } else if h == ControlHandler {
            var target := RobotControlMsgHandler(body);
            deliveries := deliveries + [target];
          } else {
            assert deliveries + [] == deliveries;
          }
        } else {
          assert deliveries + [] == deliveries;
        }
      }
      assert subscribers[..|subscribers|] == subscribers;
    }

    /** One arm's tick inside `update`: arm `k` steps and no other arm changes. */
    method TickArm(m: Trig, k: nat)
      requires Valid() && k < |robotsInWs|
      modifies robotsInWs[k]
      ensures Valid()
      ensures robotsInWs[k].State() == Robot.Tick(m, robotsInWs[k].Config(), old(robotsInWs[k].State()))
      ensures forall i :: 0 <= i < |robotsInWs| && i != k ==> robotsInWs[i].State() == old(robotsInWs[i].State())
    {
      robotsInWs[k].Update(m);
    }

    /** `update`: every arm takes one tick, in list order, and the results
        of each arm in "start" whose results are ready are published.
        `ready` holds the indices of the arms whose generator result and
        visual result are both present after their tick. */
    method Update(m: Trig, ready: set<nat>) returns (published: seq<Publication>)
      requires Valid()
      modifies set r | r in robotsInWs
      ensures Valid()
      ensures forall i :: 0 <= i < |robotsInWs| ==>
                robotsInWs[i].State() == Robot.Tick(m, robotsInWs[i].Config(), old(robotsInWs[i].State()))
      ensures Controls() == old(Controls())
      ensures published == PublishPlan(Controls(), ready, 0)
    {
      published := [];
      ghost var cs := Controls();
      ghost var before := States();
      for k := 0 to |robotsInWs|
        invariant Valid()
        invariant forall i :: 0 <= i < k ==> robotsInWs[i].State() == Robot.Tick(m, robotsInWs[i].Config(), before[i])
        invariant forall i :: k <= i < |robotsInWs| ==> robotsInWs[i].State() == before[i]
        invariant forall i :: 0 <= i < |robotsInWs| ==> before[i].control == cs[i]
        invariant published == PublishPlan(cs[..k], ready, 0)
      {
        TickArm(m, k);
        PublishPlanSnoc(cs, ready, k);
        published := published + ArmPublications(robotsInWs[k].control, k in ready, k);
      }
      assert cs[..|robotsInWs|] == cs;
      assert Controls() == cs;
    }
  }

  /** `WSRobots(eventloop, config)` with its failure paths. */
  method NewWorkspace(config: WsConfig) returns (r: Result<WSRobots, BuildError>)
    ensures r.Ok? <==> Buildable(config)
    ensures r.Err? && config.protocol.None? ==> r.error == NoProtocol
    ensures r.Err? && config.protocol.Some? ==> (r.error == NonAmqChannel <==> !WsChannelsAmq(config.protocol.value))
    ensures r.Err? && config.protocol.Some? && WsChannelsAmq(config.protocol.value) ==>
              && r.error.RobotExit? && r.error.index < |config.robots|
              && !RobotChannelsAmq(config.robots[r.error.index])
              && forall j :: 0 <= j < r.error.index ==> RobotChannelsAmq(config.robots[j])
    ensures r.Ok? ==> fresh(r.value) && r.value.Valid() && r.value.BuiltFrom(config)
  {
    if config.protocol.None? {
      return Err(NoProtocol);
    }
    var p := config.protocol.value;
    if !WsChannelsAmq(p) {
      return Err(NonAmqChannel);
    }
    for k := 0 to |config.robots|
      invariant forall i :: 0 <= i < k ==> RobotChannelsAmq(config.robots[i])
    {
      if !RobotChannelsAmq(config.robots[k]) {
        return Err(RobotExit(k));
      }
    }
    var ws := new WSRobots(config);
    r := Ok(ws);
  }
}
