/** The configuration search that the constructors of the two older
    `RobotArm2` copies perform: the robot entry is the first one whose id
    matches (the loop breaks), the motion pattern comes from the last
    sequence whose name matches (the loop has no break). */
module ConfigLookup {
  import opened Wrappers
  import opened Kinematics

  /** One entry of the `robot` list, with the keys the arm reads. */
  datatype RobotConf = RobotConf(
    id: string,
    proportionalGain: real,
    sampleRate: real,
    geometry: Geometry,
    shoulder: Point,
    patternName: string)

  /** One entry of the `sequence` list: a name and its waypoints. */
  datatype SequenceConf = SequenceConf(name: string, pattern: seq<Coordinate>)

  /** `info` is the entry at the first index whose id is `robotId`. */
  predicate IsFirstRobot(robots: seq<RobotConf>, robotId: string, info: RobotConf)
  {
    exists i :: 0 <= i < |robots| && robots[i] == info && robots[i].id == robotId
      && forall j :: 0 <= j < i ==> robots[j].id != robotId
  }

  /** `pattern` is None when no sequence is called `name`, and otherwise the
      waypoints of the last sequence of that name. */
  predicate IsLastPattern(sequences: seq<SequenceConf>, name: string, pattern: Option<seq<Coordinate>>)
  {
    && (pattern.None? <==> forall i :: 0 <= i < |sequences| ==> sequences[i].name != name)
    && (pattern.Some? ==>
          exists i :: 0 <= i < |sequences| && sequences[i].name == name && sequences[i].pattern == pattern.value
            && forall j :: i < j < |sequences| ==> sequences[j].name != name)
  }

  /** The robot entry for `robotId`: the first entry with that id, or None
      when no entry has it (the constructor then fails its assertion). */
  method FindRobot(robots: seq<RobotConf>, robotId: string) returns (info: Option<RobotConf>)
    ensures info.None? <==> forall i :: 0 <= i < |robots| ==> robots[i].id != robotId
    ensures info.Some? ==> IsFirstRobot(robots, robotId, info.value)
  {
    info := None;
    var i := 0;
    while i < |robots|
      invariant 0 <= i <= |robots|
      invariant forall j :: 0 <= j < i ==> robots[j].id != robotId
    {
      if robots[i].id == robotId {
        info := Some(robots[i]);
        break;
      }
      i := i + 1;
    }
  }

  /** The pattern named `name`: the waypoints of the LAST sequence with that
      name, or None when no sequence has it. */
  method FindPattern(sequences: seq<SequenceConf>, name: string) returns (pattern: Option<seq<Coordinate>>)
    ensures IsLastPattern(sequences, name, pattern)
  {
    pattern := None;
    ghost var last := -1;
    for i := 0 to |sequences|
      invariant -1 <= last < i
      invariant pattern.None? <==> last == -1
      invariant last == -1 ==> forall j :: 0 <= j < i ==> sequences[j].name != name
      invariant last >= 0 ==> sequences[last].name == name && pattern == Some(sequences[last].pattern)
      invariant forall j :: last < j < i ==> sequences[j].name != name
    {
      if sequences[i].name == name {
        pattern := Some(sequences[i].pattern);
        last := i;
      }
    }
  }
}
