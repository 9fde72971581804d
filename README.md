# pyrobomogen — a Dafny model of the arm controller's discrete logic

pyrobomogen simulates planar robot arms with two joints. Each arm
(`RobotArm2`) runs a proportional controller. On each `update` it solves the
inverse kinematics for its destination and moves both joints a step towards
the goal angles. A destination it cannot reach is replaced by the last one it
solved. Once the wrist is close enough to the goal, the arm moves on to the
next waypoint of its motion pattern. Control messages switch an arm between
"start" and "stop".

A workspace (`WSRobots`) does three things:
- builds the arms from the configuration;
- routes control messages to them;
- ticks them all and publishes their results.

A watchdog timer (`WDT`) calls a callback when it has not been refreshed in
time. Configuration scalars may hold `${NAME}` placeholders, which are filled
from the environment.

The model covers four parts:
- all three versions of the arm: the current package, the `RoboGen` copy and
  the top-level module;
- the workspace;
- the watchdog's checker loop, one iteration at a time over an explicit
  microsecond clock;
- the environment substitution.

Each stateful part is a class with a method per operation. Each method is
proved against a pure function (`Tick`, `LegacyTick`, `AdvanceCursor`,
`OperationState`, `CheckerStep`, `ConsumePlan`, `PublishPlan`, `Substitute`).
Lemmas then state what the source promises about those functions.

Modules, one per file:

- `Wrappers`: `Option` and `Result`.
- `Strings`: `str.split`, `str.join`, `str.replace` and the substring test.
- `Kinematics`: the inverse-kinematics step.
  - arc cosine, atan2, sine, cosine, hypot and square root are uninterpreted
    fields of a `Trig` record;
  - the elbow cosine argument, the reach test and the angle wrap
    `(a - b + π) % 2π - π` (Python's floored float modulo) are exact.
- `MotionCursor`: the round-robin waypoint cursor of `get_motion_sequence`.
- `ArmStep`: the pose shared by all versions and the solved part of a tick.
- `Robot`: the current arm with its operation-state gate, its catch-all
  rollback handler and its control-message filter.
- `LegacyArm`: the tick of the two older arms.
  - They have no gate.
  - Only the two "cannot be reached" RuntimeErrors roll back.
  - A TypeError calls `exit(-1)`.
  - A ZeroDivisionError or IndexError escapes `update`.
- `ConfigLookup`: the configuration search of the older constructors. The
  robot is the first id match. The pattern is the last sequence whose name
  matches.
- `RoboGenModel`, `RootModel`: the two older `RobotArm2` classes. The second
  keeps separate x and y destination fields.
- `Watchdog`: the `WDT` fields, one checker iteration, and runs of iterations.
  pyrobomogen/watchdog_timer/watchdog_timer.py and
  pyrobomogen/watchdog_timer/wdt.py are identical, so one model serves both.
- `EnvConfig`: `env_pattern.findall` and the replacement loop of
  `env_constructor`.
- `Workspace`: `WSRobots`, handler dispatch, control routing, and the
  publications of one tick.

## Model

| member | source | states |
|---|---|---|
| Strings.Split | pyrobomogen/robot/model.py:335-336 | `split` always yields at least one piece, so the last piece exists |
| Strings.ReplaceAllIsJoinOfSplit | pyrobomogen/cli.py:46 | `s.replace(p, r)` equals `r.join(s.split(p))`: every occurrence is replaced and nothing else changes |
| Strings.ReplaceAllBySelf | pyrobomogen/cli.py:46 | replacing a pattern by itself returns the string |
| Strings.JoinSplitRoundTrip | pyrobomogen/robot/model.py:335 | joining the pieces of a split with its separator restores the string |
| Strings.ReplaceAllAbsent | pyrobomogen/cli.py:46 | a string that does not contain the pattern is unchanged |
| Strings.ReplaceAllSkipsPrefix | pyrobomogen/cli.py:46 | a prefix without the pattern's first character is copied unchanged |
| Strings.SplitLastPiece | pyrobomogen/robot/model.py:335-336 | the last piece of a split on one character holds no separator and is a suffix of the string; it is preceded by the separator unless it is the whole string |
| Strings.LastSegmentIsAfterLastDot | pyrobomogen/robot/model.py:335-336 | `split(".")[-1]` is the text after the last dot, or the whole key when it has no dot |
| Strings.LastSegmentAfterDot | pyrobomogen/robot/model.py:335-336 | the key `prefix.t`, where `t` has no dot, has last segment `t` |
| Strings.ContainsExtended | pyrobomogen/robot/model.py:334 | text contained in a key is still contained after appending to the key |
| Kinematics.Solve | pyrobomogen/robot/model.py:171-213 | a solved destination is numeric |
| Kinematics.SolveSucceedsIffReachable | pyrobomogen/robot/model.py:171-187 | solving succeeds iff the destination is numeric, has norm at most L1+L2, has non-zero links and a cosine argument in [-1, 1]; the elbow goal is the arc cosine of that argument |
| Kinematics.OuterReachImpliesCosineAboveOne | pyrobomogen/robot/model.py:171-185 | with a true square root and positive links, a destination beyond the outer reach also has a cosine argument above 1 |
| Kinematics.ReachScenario | RoboGen/model.py:165-180 | with links 1 and 1, (1.5, 0) is solved and (3, 0) fails the outer-reach test |
| Kinematics.SubtractingBranchWhenAcosNonNegative | RoboGen/model.py:182-208 | when arc cosine is never negative, the shoulder goal always subtracts the elbow correction |
| Kinematics.ModTwoPi | RoboGen/model.py:211 | Python's float `% (2π)` lies in [0, 2π) |
| Kinematics.AngleDifference | RoboGen/model.py:210-211 | the wrapped difference lies in [-π, π); model.py line 131 is the same lambda |
| Kinematics.AngleDifferenceWraps | model.py:131 | the wrapped difference differs from a − b by a whole number of turns 2π |
| Kinematics.AngleDifferenceOfSmall | RoboGen/model.py:210-211 | a difference already in [-π, π) is returned unchanged |
| MotionCursor.CursorIndex | pyrobomogen/robot/model.py:292-293 | the index read is within the pattern |
| MotionCursor.AdvanceCursor | pyrobomogen/robot/model.py:288-298 | no pattern: nothing; empty pattern: IndexError; otherwise waypoint k (the count, or 0 once it reaches the length) and new count k+1 in 1..len |
| MotionCursor.CyclicVisit | RoboGen/model.py:286-291 | from count 0, the n-th call aims at waypoint (n−1) mod len and leaves the count at (n−1) mod len + 1 |
| ArmStep.InitialPoseInvariant | pyrobomogen/robot/model.py:88-95 | the initial pose (angles 0, destinations [0, 0], count 0) satisfies the pose invariant |
| ArmStep.Approach | pyrobomogen/robot/model.py:218-237 | after a solve, both joints take one proportional step and the previous destination becomes the aimed destination; the destination stays or becomes the waypoint just counted; IndexError iff the wrist reached the goal and the pattern is empty |
| ArmStep.ApproachAdvancesOnlyAtGoal | pyrobomogen/robot/model.py:230-237 | away from the goal, destination and count stay; at the goal the cursor makes exactly one `get_motion_sequence` move |
| ArmStep.ApproachKeepsInvariant | pyrobomogen/robot/model.py:218-237 | a solved step keeps the previous destination numeric and the count within the pattern |
| Robot.OperationState | pyrobomogen/robot/model.py:157-163 | the new state is the old one, "start" or "stop", and it changes only on "start" or " stop" |
| Robot.OperationStateCommands | pyrobomogen/robot/model.py:157-163 | "start" gives "start"; only " stop" (leading space) gives "stop"; "stop" and every other command leave the state |
| Robot.OperationStateIdempotent | pyrobomogen/robot/model.py:157-163 | the same command applied twice gives the same state as applied once |
| Robot.Tick | pyrobomogen/robot/model.py:165-244 | a tick never changes the operation state |
| Robot.TickGate | pyrobomogen/robot/model.py:169-170 | outside "start", a tick changes no field |
| Robot.TickRollback | pyrobomogen/robot/model.py:171-244 | an unreachable destination is replaced by the previous destination; angles, previous destination and count stay |
| Robot.TickSolved | pyrobomogen/robot/model.py:218-237 | a reachable destination moves both joints and becomes the previous destination before any waypoint advance; the new destination is the old one or the waypoint just counted |
| Robot.TickKeepsInvariant | pyrobomogen/robot/model.py:165-244 | every tick keeps the pose invariant, so a rollback always restores a numeric destination |
| Robot.AddressedByRoutingKey | pyrobomogen/robot/model.py:334-339 | for a key `<prefix>.<id>` whose prefix mentions "control.robot", an arm accepts a body iff the body has `id` and `control`, its id is that id, and the arm's id is that id |
| Robot.RobotArm2.constructor | pyrobomogen/robot/model.py:75-100 | the constants of the configuration entry (`BuiltFrom`), angles 0, destination and previous destination [0, 0], count 0, `control` from the configured operation state, shoulder at the base |
| Robot.RobotArm2.UpdateOperationState | pyrobomogen/robot/model.py:157-163 | `control` becomes `OperationState(old control, command)` |
| Robot.RobotArm2.GetMotionSequence | pyrobomogen/robot/model.py:288-298 | the destination and count move as `AdvanceCursor` says; an IndexError is raised iff the pattern is empty |
| Robot.RobotArm2.Update | pyrobomogen/robot/model.py:165-244 | the new state is `Tick` of the old state, and the invariant is kept |
| Robot.RobotArm2.ConsumeControlMsg | pyrobomogen/robot/model.py:327-341 | `control` is updated by the message's command iff a subscriber is on the message's exchange and the message is addressed to this arm; otherwise it is unchanged |
| Robot.NewRobotArm | pyrobomogen/robot/model.py:106-137 | an arm is built iff every channel is "amq", it has the entry's constants, and it starts in the initial pose with the configured operation state |
| LegacyArm.LegacyTick | RoboGen/model.py:157-240 | the tick completes, or raises IndexError, iff the destination is reachable |
| LegacyArm.LegacyRollbackOnlyOnRuntimeError | RoboGen/model.py:165-240 | it rolls back iff one of the two reachability tests fails, and a rollback changes only the destination |
| LegacyArm.LegacyTerminatingErrors | RoboGen/model.py:232-237 | a non-numeric destination exits, and for a destination within reach a zero link length raises ZeroDivisionError; neither changes a field |
| LegacyArm.LegacySolved | RoboGen/model.py:213-228 | a solved tick steps both joints and sets the previous destination before the goal check; an IndexError leaves the count at 0 |
| LegacyArm.LegacyTickKeepsInvariant | RoboGen/model.py:157-240 | every tick keeps the pose invariant |
| ConfigLookup.FindRobot | RoboGen/model.py:48-54 | no entry iff no robot has the id; otherwise the first entry with that id |
| ConfigLookup.FindPattern | RoboGen/model.py:62-65 | None iff no sequence has the name; otherwise the pattern of the last sequence with the name |
| RoboGenModel.RobotArm2.constructor | RoboGen/model.py:56-74 | configured constants and the initial pose |
| RoboGenModel.RobotArm2.GetMotionSequence | RoboGen/model.py:286-291 | the destination becomes the `position` of waypoint k and the count becomes k+1, as `AdvanceCursor` says |
| RoboGenModel.RobotArm2.Update | RoboGen/model.py:157-240 | the new pose and the outcome are those of `LegacyTick` |
| RoboGenModel.NewRobotArm | RoboGen/model.py:42-74 | fails iff no robot has the id; otherwise built from the first matching entry and the last matching pattern |
| RootModel.RobotArm2.constructor | model.py:51-71 | configured constants; x, y, previous x and previous y all 0; count 0 |
| RootModel.RobotArm2.GetMotionSequence | model.py:189-195 | x and y both come from waypoint k, then the count becomes k+1 |
| RootModel.RobotArm2.Update | model.py:107-160 | x and y together follow `LegacyTick`: both are copied to the previous fields on a solve, and both are restored on a rollback |
| RootModel.NewRobotArm | model.py:44-60 | first matching robot (assertion on none) and last matching pattern |
| Watchdog.CheckerStep | pyrobomogen/watchdog_timer/watchdog_timer.py:35-58 | a firing step passes the identifier; no step changes `internal_ts`, `pause_flag` or `poison_pill` |
| Watchdog.FiresIff | pyrobomogen/watchdog_timer/watchdog_timer.py:39-52 | a running checker calls the callback iff it is neither poisoned nor paused and strictly more than the delta has passed |
| Watchdog.FiringLeavesState | pyrobomogen/watchdog_timer/watchdog_timer.py:48-55 | calling the callback changes no field |
| Watchdog.PoisonExits | pyrobomogen/watchdog_timer/wdt.py:39-58 | a poisoned step exits without calling the callback and sets `thread_stopped`; afterwards nothing happens |
| Watchdog.PausedStep | pyrobomogen/watchdog_timer/watchdog_timer.py:42-47 | a paused step never fires; it waits until the resume event is set, then clears it and skips the expiry check |
| Watchdog.WaitIgnoresPoison | pyrobomogen/watchdog_timer/wdt.py:42-44 | once the checker is parked in `resume_event.wait()`, it ignores the poison pill until `resume()`, so a `stop()` made then blocks |
| Watchdog.PoisonBeforeWaitExits | pyrobomogen/watchdog_timer/wdt.py:39-44 | a pill set while the checker is paused but not yet parked is seen first: the checker exits and sets `thread_stopped`, so `stop()` returns |
| Watchdog.Run | pyrobomogen/watchdog_timer/wdt.py:36-55 | a run of the loop yields one outcome per clock reading |
| Watchdog.RunAppend | pyrobomogen/watchdog_timer/wdt.py:36-55 | running over two stretches of clock readings in turn equals running over both, the second from the state the first leaves |
| Watchdog.KeepsFiring | pyrobomogen/watchdog_timer/wdt.py:48-55 | once it has fired, every later step fires again and the state is unchanged; the callback is not once-only |
| Watchdog.PausedRunNeverFires | pyrobomogen/watchdog_timer/wdt.py:42-47 | a paused, unpoisoned timer never fires, however many steps it takes |
| Watchdog.RefreshPreventsFiring | pyrobomogen/watchdog_timer/watchdog_timer.py:60-62 | after a refresh at t, no step at a clock up to t + delta fires |
| Watchdog.WDT.constructor | pyrobomogen/watchdog_timer/watchdog_timer.py:11-25 | delta is `trigger_delta_sec × 1000000`; no flags or events set; thread name "wdt_checker"; `start` stamps `internal_ts` with the clock |
| Watchdog.WDT.Update | pyrobomogen/watchdog_timer/wdt.py:60-62 | `internal_ts` becomes the clock, nothing else changes |
| Watchdog.WDT.Reset | pyrobomogen/watchdog_timer/wdt.py:64-65 | the same as `update` |
| Watchdog.WDT.Pause | pyrobomogen/watchdog_timer/wdt.py:67-69 | sets `pause_flag` only |
| Watchdog.WDT.Resume | pyrobomogen/watchdog_timer/wdt.py:71-74 | clears `pause_flag` and sets the resume event, leaving `internal_ts` alone |
| Watchdog.WDT.Start | pyrobomogen/watchdog_timer/watchdog_timer.py:76-77 | stamps `internal_ts` with the clock |
| Watchdog.WDT.Stop | pyrobomogen/watchdog_timer/watchdog_timer.py:88-89 | sets `poison_pill` only |
| Watchdog.WDT.GetInternalTime | pyrobomogen/watchdog_timer/watchdog_timer.py:94-95 | definition: the getter returns `internal_ts` |
| Watchdog.WDT.Step | pyrobomogen/watchdog_timer/wdt.py:35-58 | one checker iteration: new state and outcome as `CheckerStep` says |
| EnvConfig.CloseBrace | pyrobomogen/cli.py:40 | the lazy group closes at the first '}' with no newline before it |
| EnvConfig.Placeholder | pyrobomogen/cli.py:46 | the searched text is `${name}` |
| EnvConfig.EnvConstructor | pyrobomogen/cli.py:43-47 | the result is `Substitute` over the names `findall` returns, in order |
| EnvConfig.NoNamesIffNoPlaceholder | pyrobomogen/cli.py:40 | `findall` finds no name iff the scalar holds no `${` whose group closes on its line, so "$5", "a$b", "${X" and "${X\n}" yield none |
| EnvConfig.NoDollarNoPlaceholders | pyrobomogen/cli.py:40 | a scalar without `$` has no placeholder |
| EnvConfig.NoPlaceholderUnchanged | pyrobomogen/cli.py:43-47 | a scalar without a `${...}` that closes on its line is returned unchanged |
| EnvConfig.PlaceholdersSkip | pyrobomogen/cli.py:40 | text without `$` before a placeholder adds no name |
| EnvConfig.PlaceholdersInOrder | pyrobomogen/cli.py:40-45 | names come out in the order they appear: `p${name}q` yields `name`, then the names of `q` |
| EnvConfig.CloseBraceAfter | pyrobomogen/cli.py:40 | the group of `${name}…` closes right after `name` |
| EnvConfig.SubstituteFailsIffMissing | pyrobomogen/cli.py:46 | substitution fails iff some name is missing from the environment, and the error names the first one missing |
| EnvConfig.SubstituteReplacesEveryOccurrence | pyrobomogen/cli.py:46 | every occurrence of `${NAME}` is replaced by the value |
| EnvConfig.SinglePlaceholder | pyrobomogen/cli.py:45-46 | `p${name}q` with no other `$` becomes `p + value + q` |
| EnvConfig.Example | pyrobomogen/cli.py:45-46 | `a${X}b` becomes `a` + env[X] + `b` |
| Workspace.Resolve | pyrobomogen/robots.py:110-117 | definition, a lookup table for `getattr` (its consequences are the `ConsumePlan` lemmas): only `robot_control_msg_handler` is the control handler; the other attributes of a `WSRobots`, its own and those every object has, raise when called; any other name is skipped |
| Workspace.InheritedAttributeRaises | pyrobomogen/robots.py:113-118 | a subscriber naming an attribute every object has, such as `__init__`, ends the loop raising, with no delivery |
| Workspace.FirstWithId | pyrobomogen/robots.py:95-99 | None iff no arm has the id; otherwise the first index with it |
| Workspace.ConsumeDeliversToFirstMatch | pyrobomogen/robots.py:92-118 | every delivery of a message goes to the same arm: the first with the body's id; there is none when the body lacks `id` or `control` or no arm has the id |
| Workspace.ConsumePlanAppend | pyrobomogen/robots.py:108-118 | visiting two runs of subscribers in turn: once the first raises the second is never visited; otherwise its deliveries follow the first's |
| Workspace.UnresolvedSkipped | pyrobomogen/robots.py:112-116 | a subscriber whose handler name does not resolve is skipped and the loop goes on |
| Workspace.AllControlHandlers | pyrobomogen/robots.py:108-118 | with control-handler subscribers only, there is one delivery per subscriber and nothing raises |
| Workspace.PublishPlanStep | pyrobomogen/robots.py:121-129 | the plan from arm k is arm k's publications followed by the plan from arm k+1 |
| Workspace.PublishPlanAppend | pyrobomogen/robots.py:121-129 | the plan of two runs of arms is the concatenation of their plans |
| Workspace.PublishPlanSnoc | pyrobomogen/robots.py:121-129 | the plan of arms 0..k is the plan of arms 0..k−1 followed by arm k's publications |
| Workspace.PublishPlanMembers | pyrobomogen/robots.py:123-129 | a publication is made iff it goes to "generator_robot" or "visual", for an arm in "start" whose results are ready |
| Workspace.PublishPlanPairs | pyrobomogen/robots.py:124-129 | the publications come in pairs for the same arm, the generator result first and then the visual result |
| Workspace.PublishPlanInArmOrder | pyrobomogen/robots.py:121-129 | the publications follow the order of the arms |
| Workspace.Snapshot | pyrobomogen/robots.py:61-69 | definition, used by `WSRobots.BuiltFrom`: the snapshot of an entry is keyed `robot_<id>` and holds its base, a shoulder at the base, and both lengths |
| Workspace.WSRobots.constructor | pyrobomogen/robots.py:58-72 | the interval and channels of the configuration; arm i built from entry i (all its constants) and in its initial state; write i the snapshot of entry i |
| Workspace.WSRobots.BuiltRoutesByConfiguration | pyrobomogen/robots.py:92-99 | in a workspace just built, a control message goes to the first configuration entry with its id, and each arm has its entry's operation state |
| Workspace.WSRobots.RobotControlMsgHandler | pyrobomogen/robots.py:92-99 | the target is the first arm with the body's id, and none when the body lacks `id` or `control` |
| Workspace.WSRobots.ConsumeControlMsg | pyrobomogen/robots.py:101-118 | visiting the subscribers first to last and stopping at a raise, the deliveries and the raised flag are those of `ConsumePlan` |
| Workspace.WSRobots.TickArm | pyrobomogen/robots.py:121-122 | one arm ticks and no other arm changes |
| Workspace.WSRobots.Update | pyrobomogen/robots.py:120-131 | every arm takes one `Tick` from its old state, no operation state changes, and the publications are `PublishPlan` of the arms' states |
| Workspace.NewWorkspace | pyrobomogen/robots.py:24-72 | built iff `protocol` is present and every workspace and robot channel is "amq"; a missing protocol is `NoProtocol`; otherwise a workspace channel that is not "amq" is `NonAmqChannel`, and failing that the error is `RobotExit(k)` for the first robot k with such a channel; a built workspace is as the constructor leaves it for the configuration |

## Left out

- Transport: AMQP publishers and subscribers, their connection, and `publish`/`connect` of every class. A publication is a `Publication` value.
- I/O: the Redis client and the health socket server. The Redis `set` calls of `WSRobots.__init__` are recorded as `dbWrites`.
  - `NewWorkspace` checks every robot's channels before it builds anything, so a failed construction writes nothing. The source writes each robot's snapshot before it builds the next robot, so a later robot with a channel that is not "amq" exits after the earlier snapshots are stored.
- Telemetry: JSON encoding of the telemetry and of message bodies. Bodies are `map<string, string>`.
- Scheduling: the event loop, `asyncio.sleep` and `sleep`.
- Watchdog threads: the checker thread, blocking `Event.wait` and `thread_stopped.wait()` inside `stop`, and `__del__`.
  - The checker parked in the wait is a state field (`checkerWaiting`), and one loop iteration is one `Step`.
  - The clock `now()` is a parameter.
  - The callback is the `Fired` outcome.
- Kinematics: floating-point rounding, and the library functions sqrt, arccos, atan2, sin, cos and hypot. These are uninterpreted, π is the decimal of `np.pi`, and all arithmetic is exact over the reals.
- Forward kinematics and telemetry publication (`generate_inverse_kinematics`, `generate_joint_coordinates`, `get_forward_kinematics`, `get_joint_coordinates`): these only compute the wrist position, which is `WristOffset`, and publish it.
- Configuration: KeyErrors from a configuration missing a key. The configuration is typed.
- `RootModel.NewRobotArm`: the top-level `__init__` loads its YAML file itself, and when the path does not exist it returns an object with no field set, without an error. The model takes a loaded configuration, so that path is not modelled.
- pyrobomogen/cli.py: YAML loading, `read_config`, `app`, `app_main` and the SIGHUP handler.
- Regular expressions: the regex engine. `env_pattern.findall` is `Placeholders`.
- Workspace members: `robo.control_msg_handler`, `robo.generator_result` and `robo.visual_result` are not defined by the `RobotArm2` class as written. Neither is the subscriber's `get_callback_handler_name`.
  - `Workspace.WSRobots.RobotControlMsgHandler` returns the index of the arm the body is handed to.
  - Readiness of both results is the parameter `ready`.
  - The handler name is a field of `SubscriberConf`.
- Handler dispatch: a subscriber whose handler resolves to another attribute of the workspace counts as raising in `ConsumePlan`. The attributes every object has are those of CPython 3.11 (`__getstate__` is absent before 3.11, where that name is skipped instead). This includes `consume_control_msg` itself, whose call would recurse. The model does not follow what that call would do.
- `WSRobots.remove`: deleting the loop variable has no effect on the workspace, so it is not modelled.
- Floats: numbers are unbounded reals. Python's float overflow and NaN are not modelled.

## Behaviour of the code worth noting


- The angle wrap lands in [-π, π), as the formula computes.
- There is no "off" command: only "start" and " stop" change the operation state.
- There is no locking around the watchdog's fields.
- The watchdog callback fires on every expired check until the timer is refreshed.
