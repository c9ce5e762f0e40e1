/**
 * `PentaxisControllerHandle`: the MoveIt controller handle that drives the
 * Pentaxis arm through a Galil DMC-4060.
 *
 * The handle keeps one piece of state between calls, the position the arm
 * was last commanded to (`currentJointStatePos`). `SendTrajectory` compiles
 * a five-joint trajectory into a PVT program, downloads and runs it and
 * waits for the controller's "DONE"; a one-joint trajectory opens or closes
 * the gripper; any other joint count only opens the connection.
 *
 * The Galil link is not modelled: the calls the handle makes are returned
 * as a list, and the controller's behaviour is an input (`Device`) saying
 * which call, if any, throws, and what `message` replies.
 */
module ControllerHandle {
  import opened Wrappers
  import opened Trajectory
  import opened Compiler
  import opened PvtProgram

  /** The controller's fixed IP address. */
  const Address: string := "192.168.1.2"

  /** One call on the Galil link object, in the order the handle makes them. */
  datatype DeviceCall =
    | Open(address: string)            // the `Galil` constructor, which connects
    | Connection                       // `connection()`, logged
    | LibraryVersion                   // `libraryVersion()`, logged
    | ProgramDownload(program: string)
    | Command(text: string)
    | Message(timeoutMs: int)          // waits up to `timeoutMs` for a message from the controller

  /**
   * How the controller answers during one `SendTrajectory`: the index of the
   * call that throws, if any, and the text `message` returns.
   */
  datatype Device = Device(throwsAt: Option<nat>, reply: string)

  /** What one `SendTrajectory` returns, issues and publishes, and the cache it leaves. */
  datatype Outcome = Outcome(ok: bool, calls: seq<DeviceCall>, published: Option<JointState>, cache: seq<real>)

  /** The calls every branch starts with: connect, then the two logged queries. */
  const Preamble: seq<DeviceCall> := [Open(Address), Connection, LibraryVersion]

  /** Milliseconds to wait for "DONE": the last waypoint's time plus half a second, rounded. */
  function Timeout(lastTime: real): (ms: int)
    ensures lastTime * 1000.0 + 499.5 <= ms as real <= lastTime * 1000.0 + 500.5
    ensures lastTime >= 0.0 ==> ms >= 500
  {
    Round(lastTime * 1000.0 + 500.0)
  }

  /**
   * `std::string::compare`: negative, zero or positive as `a` sorts before,
   * equal to or after `b`, character by character, a proper prefix first.
   */
  function Compare(a: string, b: string): (r: int)
    ensures r == 0 <==> a == b
    decreases |a|
  {
    if |a| == 0 then (if |b| == 0 then 0 else -1)
    else if |b| == 0 then 1
    else if a[0] < b[0] then -1
    else if a[0] > b[0] then 1
    else Compare(a[1..], b[1..])
  }

  /** `completion.compare(0, 4, "DONE") == 0`: the reply's first (up to) four characters against "DONE". */
  function Completed(reply: string): (done: bool)
    ensures done <==> |reply| >= 4 && reply[..4] == "DONE"
  {
    Compare(reply[..if |reply| < 4 then |reply| else 4], "DONE") == 0
  }

  /** The PVT program the arm branch downloads for `points`, measured from `cache`. */
  function Program(points: seq<Waypoint>, cache: seq<real>, twoPi: real): string
    requires ArmPoints(points) && |cache| == ArmJoints && twoPi > 0.0
  {
    Encode(StepMatrix(points, cache, twoPi), VelocityMatrix(points, twoPi))
  }

  /** The gripper closes when its first position is beyond its last one. */
  predicate Closing(points: seq<Waypoint>)
    requires GripperPoints(points)
  {
    points[0].positions[0] > Last(points).positions[0]
  }

  /** The gripper position reported after closing or opening. */
  function GripperPosition(closing: bool): real
  {
    if closing then -0.020 else 0.0
  }

  /** What the trajectory lets each branch index. */
  predicate Indexable(t: JointTrajectory)
  {
    (|t.jointNames| == ArmJoints ==> ArmPoints(t.points)) &&
    (|t.jointNames| == 1 ==> GripperPoints(t.points))
  }

  /** The arm branch's calls: connect, download the program, run it, wait for its message. */
  function ArmCalls(program: string, lastTime: real): seq<DeviceCall>
  {
    Preamble + [ProgramDownload(program), Command("XQ #PVT"), Message(Timeout(lastTime))]
  }

  /** The gripper branch's calls: connect, then jog closed or move to 0, then begin motion on F. */
  function GripperCalls(closing: bool): seq<DeviceCall>
  {
    Preamble + (if closing then [Command("JGF= 1500"), Command("BG F")] else [Command("PAF= 0"), Command("BG F")])
  }

  /** The calls `SendTrajectory` makes when nothing throws. */
  function Planned(t: JointTrajectory, cache: seq<real>, twoPi: real): seq<DeviceCall>
    requires Indexable(t) && |cache| == ArmJoints && twoPi > 0.0
  {
    if |t.jointNames| == ArmJoints then ArmCalls(Program(t.points, cache, twoPi), Last(t.points).timeFromStart)
    else if |t.jointNames| == 1 then GripperCalls(Closing(t.points))
    else Preamble
  }

  /** Whether one of the `planned` calls throws. */
  predicate Throws(planned: seq<DeviceCall>, device: Device)
  {
    device.throwsAt.Some? && device.throwsAt.value < |planned|
  }

  /** The calls actually made: all planned ones, or those up to and including the one that throws. */
  function Issued(planned: seq<DeviceCall>, device: Device): (issued: seq<DeviceCall>)
    ensures issued <= planned
    ensures Throws(planned, device) ==> |issued| == device.throwsAt.value + 1
    ensures !Throws(planned, device) ==> issued == planned
  {
    if Throws(planned, device) then planned[..device.throwsAt.value + 1] else planned
  }

  /** The state echoed after an arm motion: the last waypoint, nothing measured. */
  function ArmState(t: JointTrajectory): JointState
    requires |t.points| >= 1
  {
    var last := Last(t.points);
    JointState(t.header, t.jointNames, last.positions, last.velocities, last.effort)
  }

  /** The state echoed after a gripper move: the last waypoint with the gripper's fixed position. */
  function GripperState(t: JointTrajectory): JointState
    requires GripperPoints(t.points)
  {
    var last := Last(t.points);
    JointState(t.header, t.jointNames, last.positions[0 := GripperPosition(Closing(t.points))], last.velocities, last.effort)
  }

  /**
   * One `sendTrajectory` as a function of the trajectory, the cache before
   * the call and the controller's behaviour. The arm branch overwrites the
   * cache once the connection is up, before the download.
   */
  function Send(t: JointTrajectory, cache: seq<real>, device: Device, twoPi: real): (o: Outcome)
    requires Indexable(t) && |cache| == ArmJoints && twoPi > 0.0
    ensures !o.ok ==> o.published == None
    ensures o.cache == NewCache(t, cache, device) && |o.cache| == ArmJoints
    ensures |t.jointNames| != ArmJoints ==> o.cache == cache
  {
    var planned := Planned(t, cache, twoPi);
    var calls := Issued(planned, device);
    var newCache := NewCache(t, cache, device);
    if Throws(planned, device) then Outcome(false, calls, None, newCache)
    else if |t.jointNames| == ArmJoints then
      (if Completed(device.reply) then Outcome(true, calls, Some(ArmState(t)), newCache)
       else Outcome(false, calls, None, newCache))
    else if |t.jointNames| == 1 then Outcome(true, calls, Some(GripperState(t)), newCache)
    else Outcome(true, calls, None, newCache)
  }

  /**
   * The cache after one `sendTrajectory`: the arm branch overwrites it with
   * the last waypoint as soon as the connection is up; nothing else touches it.
   */
  function NewCache(t: JointTrajectory, cache: seq<real>, device: Device): (c: seq<real>)
    requires Indexable(t) && |cache| == ArmJoints
    ensures |c| == ArmJoints
  {
    if |t.jointNames| == ArmJoints && !Throws(Preamble, device) then Last(t.points).positions[..ArmJoints] else cache
  }

  /** Appends `c` to the calls made so far; it throws if the device says so for this index. */
  method Call(calls: seq<DeviceCall>, c: DeviceCall, device: Device) returns (after: seq<DeviceCall>, threw: bool)
    ensures after == calls + [c]
    ensures threw <==> device.throwsAt == Some(|calls|)
  {
    after := calls + [c];
    threw := device.throwsAt == Some(|calls|);
  }

  /** Opens the link to the controller and queries it; reports whether a call threw. */
  method Connect(device: Device) returns (threw: bool, calls: seq<DeviceCall>)
    ensures calls == Issued(Preamble, device)
    ensures threw <==> Throws(Preamble, device)
  {
    calls, threw := Call([], Open(Address), device);
    if threw { return; }
    calls, threw := Call(calls, Connection, device);
    if threw { return; }
    calls, threw := Call(calls, LibraryVersion, device);
  }

  /**
   * After the preamble, downloads `program`, executes `#PVT` and waits for
   * the controller's message; accepted only if nothing throws and the
   * message starts with "DONE".
   */
  method RunProgram(calls: seq<DeviceCall>, program: string, lastTime: real, device: Device)
    returns (accepted: bool, after: seq<DeviceCall>)
    requires calls == Preamble && !Throws(Preamble, device)
    ensures after == Issued(ArmCalls(program, lastTime), device)
    ensures accepted <==> !Throws(ArmCalls(program, lastTime), device) && Completed(device.reply)
  {
    accepted := false;
    var threw;
    after, threw := Call(calls, ProgramDownload(program), device);
    if threw { return; }
    after, threw := Call(after, Command("XQ #PVT"), device);
    if threw { return; }
    after, threw := Call(after, Message(Timeout(lastTime)), device);
    if threw { return; }
    var completion := device.reply;
    accepted := Completed(completion);
  }

  /** After the preamble, closes or opens the gripper; reports whether a call threw. */
  method OperateGripper(calls: seq<DeviceCall>, closing: bool, device: Device) returns (threw: bool, after: seq<DeviceCall>)
    requires calls == Preamble && !Throws(Preamble, device)
    ensures after == Issued(GripperCalls(closing), device)
    ensures threw <==> Throws(GripperCalls(closing), device)
  {
    if closing {
      after, threw := Call(calls, Command("JGF= 1500"), device);
      if threw { return; }
      after, threw := Call(after, Command("BG F"), device);
    } else {
      after, threw := Call(calls, Command("PAF= 0"), device);
      if threw { return; }
      after, threw := Call(after, Command("BG F"), device);
    }
  }

  class PentaxisControllerHandle {
    const name: string
    const joints: seq<string>
    /** The value the handle uses for 2π. */
    const twoPi: real
    /** `current_joint_state_pos`: where the arm was last commanded to go, per joint. */
    const currentJointStatePos: array<real>

    predicate Valid()
    {
      currentJointStatePos.Length == ArmJoints && twoPi > 0.0
    }

    function Cache(): seq<real>
      reads currentJointStatePos
    {
      currentJointStatePos[..]
    }

    /** Creates the handle with the cache at zero: the arm is assumed to start homed. */
    constructor (name: string, joints: seq<string>, twoPi: real)
      requires twoPi > 0.0
      ensures Valid() && fresh(currentJointStatePos)
      ensures this.name == name && this.joints == joints && this.twoPi == twoPi
      ensures Cache() == [0.0, 0.0, 0.0, 0.0, 0.0]
    {
      this.name := name;
      this.joints := joints;
      this.twoPi := twoPi;
      var cache := new real[ArmJoints];
      for i := 0 to ArmJoints
        invariant forall k :: 0 <= k < i ==> cache[k] == 0.0
      {
        cache[i] := 0.0;
      }
      currentJointStatePos := cache;
    }

    /** `getJoints`: the joint names the handle was created for. */
    method GetJoints() returns (joints: seq<string>)
      ensures joints == this.joints
    {
      joints := this.joints;
    }

    /**
     * The arm branch's compiler: row 0 measured from the cache, the cache
     * overwritten with the last waypoint, later rows measured from the
     * previous waypoint with axis 4 compensated, everything scaled to steps,
     * and the program text written.
     */
    method CompileArm(points: seq<Waypoint>) returns (pvt: string)
      requires Valid() && ArmPoints(points)
      modifies currentJointStatePos
      ensures Valid()
      ensures pvt == Program(points, old(Cache()), twoPi)
      ensures Cache() == Last(points).positions[..ArmJoints]
    {
      ghost var cache0 := currentJointStatePos[..];
      var nPoints := |points|;
      var diffsPos := new real[nPoints, ArmJoints];
      for i := 0 to ArmJoints
        modifies diffsPos
        invariant forall k :: 0 <= k < i ==> diffsPos[0, k] == Diff(points, cache0, 0, k)
      {
        diffsPos[0, i] := points[0].positions[i] - currentJointStatePos[i];
      }
      for i := 0 to ArmJoints
        modifies currentJointStatePos
        invariant forall k :: 0 <= k < i ==> currentJointStatePos[k] == points[nPoints - 1].positions[k]
      {
        currentJointStatePos[i] := points[nPoints - 1].positions[i];
      }
      assert Cache() == Last(points).positions[..ArmJoints];
      pvt := FinishProgram(points, cache0, diffsPos, twoPi);
    }

    /**
     * Sends a trajectory to the controller. Returns whether it was accepted,
     * the calls made on the Galil link and the joint state published, if any.
     */
    method SendTrajectory(t: JointTrajectory, device: Device) returns (ok: bool, calls: seq<DeviceCall>, published: Option<JointState>)
      requires Valid() && Indexable(t)
      modifies currentJointStatePos
      ensures Valid()
      ensures Outcome(ok, calls, published, Cache()) == Send(t, old(Cache()), device, twoPi)
    {
      ghost var cache0 := Cache();
      published := None;
      ok := false;
      var threw;
      threw, calls := Connect(device);
      if threw {
        IssuedPrefix(Preamble, Planned(t, cache0, twoPi), device);
        return;
      }
      var points := t.points;
      var nPoints := |points|;
      if |t.jointNames| == ArmJoints {
        var pvt := CompileArm(points);
        ArmOutcome(t, cache0, device, twoPi);
        var accepted;
        accepted, calls := RunProgram(calls, pvt, points[nPoints - 1].timeFromStart, device);
        if !accepted { return; }
        published := Some(ArmState(t));
      } else if |t.jointNames| == 1 {
        GripperOutcome(t, cache0, device, twoPi);
        threw, calls := OperateGripper(calls, points[0].positions[0] > points[nPoints - 1].positions[0], device);
        if threw { return; }
        published := Some(GripperState(t));
      } else {
        OtherJointCounts(t, cache0, device, twoPi);
      }
      ok := true;
    }
  }

  /**
   * The rest of the arm compiler, once row 0 of `diffsPos` holds the deltas
   * from `cache`: the later rows, the scaling and the program text.
   */
  method FinishProgram(points: seq<Waypoint>, ghost cache: seq<real>, diffsPos: array2<real>, twoPi: real) returns (pvt: string)
    requires ArmPoints(points) && |cache| == ArmJoints && twoPi > 0.0
    requires diffsPos.Length0 == |points| && diffsPos.Length1 == ArmJoints
    requires forall k :: 0 <= k < ArmJoints ==> diffsPos[0, k] == Diff(points, cache, 0, k)
    modifies diffsPos
    ensures pvt == Program(points, cache, twoPi)
  {
    LaterRowDeltas(points, diffsPos);
    assert forall j, i :: 0 <= j < |points| && 0 <= i < ArmJoints ==> diffsPos[j, i] == Diff(points, cache, j, i);
    var relativePosSteps, velSteps := Scale(points, diffsPos, twoPi);
    pvt := BuildProgram(relativePosSteps, velSteps);
    CompiledMatrices(points, cache, diffsPos, relativePosSteps, velSteps, twoPi);
  }

  /** The arrays the compiler filled hold the step and velocity matrices of the specification. */
  lemma CompiledMatrices(points: seq<Waypoint>, cache: seq<real>, diffsPos: array2<real>,
                         relativePosSteps: array2<int>, velSteps: array2<int>, twoPi: real)
    requires ArmPoints(points) && |cache| == ArmJoints && twoPi > 0.0
    requires diffsPos.Length0 == |points| && diffsPos.Length1 == ArmJoints
    requires forall j, i :: 0 <= j < |points| && 0 <= i < ArmJoints ==> diffsPos[j, i] == Diff(points, cache, j, i)
    requires relativePosSteps.Length0 == velSteps.Length0 == |points|
    requires relativePosSteps.Length1 == velSteps.Length1 == ArmJoints
    requires forall j, i :: 0 <= j < |points| && 0 <= i < ArmJoints ==>
      relativePosSteps[j, i] == PositionSteps(diffsPos[j, i], twoPi) &&
      velSteps[j, i] == VelocitySteps(i, points[j].velocities[i], twoPi)
    ensures Rows(relativePosSteps) == StepMatrix(points, cache, twoPi)
    ensures Rows(velSteps) == VelocityMatrix(points, twoPi)
  {
    var pos, vel := Rows(relativePosSteps), Rows(velSteps);
    var steps, speeds := StepMatrix(points, cache, twoPi), VelocityMatrix(points, twoPi);
    forall j | 0 <= j < |points|
      ensures pos[j] == steps[j] && vel[j] == speeds[j]
    {
      assert forall i :: 0 <= i < ArmJoints ==> pos[j][i] == steps[j][i] && vel[j][i] == speeds[j][i];
    }
  }

  // Properties of one call, and of consecutive calls

  /** A throwing call makes the handle return false and publish nothing. */
  lemma ThrowMeansRejected(t: JointTrajectory, cache: seq<real>, device: Device, twoPi: real)
    requires Indexable(t) && |cache| == ArmJoints && twoPi > 0.0
    requires Throws(Planned(t, cache, twoPi), device)
    ensures !Send(t, cache, device, twoPi).ok && Send(t, cache, device, twoPi).published == None
    ensures |Send(t, cache, device, twoPi).calls| == device.throwsAt.value + 1
  {
  }

  /** A throw within a prefix of the plan is a throw of the plan, after the same calls. */
  lemma IssuedPrefix(prefix: seq<DeviceCall>, planned: seq<DeviceCall>, device: Device)
    requires prefix <= planned && Throws(prefix, device)
    ensures Throws(planned, device) && Issued(planned, device) == Issued(prefix, device)
  {
  }

  /** The calls made are the planned ones up to a throw; all of them when the call is accepted. */
  lemma SendCalls(t: JointTrajectory, cache: seq<real>, device: Device, twoPi: real)
    requires Indexable(t) && |cache| == ArmJoints && twoPi > 0.0
    ensures Send(t, cache, device, twoPi).calls <= Planned(t, cache, twoPi)
    ensures Send(t, cache, device, twoPi).ok ==> Send(t, cache, device, twoPi).calls == Planned(t, cache, twoPi)
  {
    assert Send(t, cache, device, twoPi).calls == Issued(Planned(t, cache, twoPi), device);
  }

  /**
   * The arm branch: the calls are the preamble, the download of the program
   * compiled against the cache, `XQ #PVT` and a wait of round(1000 t + 500)
   * ms; the call is accepted exactly when nothing throws and the reply
   * starts with "DONE", and only then is the last waypoint published.
   */
  lemma ArmOutcome(t: JointTrajectory, cache: seq<real>, device: Device, twoPi: real)
    requires Indexable(t) && |cache| == ArmJoints && twoPi > 0.0 && |t.jointNames| == ArmJoints
    ensures var o := Send(t, cache, device, twoPi);
      var planned := ArmCalls(Program(t.points, cache, twoPi), Last(t.points).timeFromStart);
      && o.calls == Issued(planned, device)
      && (o.ok <==> !Throws(planned, device) && |device.reply| >= 4 && device.reply[..4] == "DONE")
      && (o.published.Some? <==> o.ok)
      && (o.ok ==> o.published == Some(ArmState(t)))
  {
  }

  /**
   * The cache is overwritten before the download: once the connection is
   * up, the new cache is the last waypoint's positions, whether or not the
   * download, the execution or the wait then fails.
   */
  lemma CacheWrittenBeforeDownload(t: JointTrajectory, cache: seq<real>, device: Device, twoPi: real)
    requires Indexable(t) && |cache| == ArmJoints && twoPi > 0.0 && |t.jointNames| == ArmJoints
    ensures Throws(Preamble, device) ==> Send(t, cache, device, twoPi).cache == cache
    ensures !Throws(Preamble, device) ==> Send(t, cache, device, twoPi).cache == Last(t.points).positions[..ArmJoints]
  {
  }

  /**
   * The gripper branch: closes (`JGF= 1500`, `BG F`, reported at -0.020)
   * exactly when the first position is beyond the last, else opens
   * (`PAF= 0`, `BG F`, reported at 0.0); it never downloads or waits and
   * leaves the cache alone.
   */
  lemma GripperOutcome(t: JointTrajectory, cache: seq<real>, device: Device, twoPi: real)
    requires Indexable(t) && |cache| == ArmJoints && twoPi > 0.0 && |t.jointNames| == 1
    ensures var o := Send(t, cache, device, twoPi);
      var closing := t.points[0].positions[0] > Last(t.points).positions[0];
      && o.calls == Issued(GripperCalls(closing), device)
      && o.cache == cache
      && (o.ok <==> !Throws(GripperCalls(closing), device))
      && (o.ok ==> o.published == Some(JointState(t.header, t.jointNames,
                     Last(t.points).positions[0 := if closing then -0.020 else 0.0],
                     Last(t.points).velocities, Last(t.points).effort)))
      && (!o.ok ==> o.published == None)
      && (forall c :: c in o.calls ==> !c.ProgramDownload? && !c.Message?)
  {
  }

  /** Any other joint count only connects: no motion commands, the cache kept, true unless a call throws. */
  lemma OtherJointCounts(t: JointTrajectory, cache: seq<real>, device: Device, twoPi: real)
    requires Indexable(t) && |cache| == ArmJoints && twoPi > 0.0
    requires |t.jointNames| != ArmJoints && |t.jointNames| != 1
    ensures var o := Send(t, cache, device, twoPi);
      && o.calls == Issued(Preamble, device)
      && (forall c :: c in o.calls ==> !c.ProgramDownload? && !c.Command? && !c.Message?)
      && o.cache == cache && o.published == None
      && (o.ok <==> !Throws(Preamble, device))
  {
  }

  /**
   * Consecutive arm calls: once the first has connected, the second one's
   * row 0 is measured from the first one's last waypoint, whether or not
   * the first was then accepted.
   */
  lemma ConsecutiveArmCalls(t1: JointTrajectory, t2: JointTrajectory, cache: seq<real>, d1: Device, twoPi: real, j: nat)
    requires Indexable(t1) && Indexable(t2) && |cache| == ArmJoints && twoPi > 0.0
    requires |t1.jointNames| == ArmJoints && |t2.jointNames| == ArmJoints && !Throws(Preamble, d1) && j < ArmJoints
    ensures StepMatrix(t2.points, NewCache(t1, cache, d1), twoPi)[0][j] ==
      PositionSteps(t2.points[0].positions[j] - Last(t1.points).positions[j], twoPi)
  {
    RowZeroFrom(t2.points, NewCache(t1, cache, d1), Last(t1.points).positions[j], twoPi, j);
  }

  /** Row 0 of the step matrix is each joint's move from its cached position to the first waypoint. */
  lemma RowZeroFrom(points: seq<Waypoint>, cache: seq<real>, from: real, twoPi: real, j: nat)
    requires ArmPoints(points) && |cache| == ArmJoints && twoPi > 0.0 && j < ArmJoints && cache[j] == from
    ensures StepMatrix(points, cache, twoPi)[0][j] == PositionSteps(points[0].positions[j] - from, twoPi)
  {
  }

  /** A fresh handle measures the first trajectory's row 0 from zero. */
  lemma FirstCallFromHome(points: seq<Waypoint>, twoPi: real, j: nat)
    requires ArmPoints(points) && twoPi > 0.0 && j < ArmJoints
    ensures StepMatrix(points, [0.0, 0.0, 0.0, 0.0, 0.0], twoPi)[0][j] == PositionSteps(points[0].positions[j], twoPi)
  {
  }

  /** The downloaded program reads back as the compiled step and velocity groups. */
  lemma ProgramReadsBack(points: seq<Waypoint>, cache: seq<real>, twoPi: real)
    requires ArmPoints(points) && |cache| == ArmJoints && twoPi > 0.0
    ensures Compiled(StepMatrix(points, cache, twoPi), VelocityMatrix(points, twoPi))
    ensures Decode(Program(points, cache, twoPi)) == Some(Segments(StepMatrix(points, cache, twoPi), VelocityMatrix(points, twoPi)))
  {
    DecodeEncode(StepMatrix(points, cache, twoPi), VelocityMatrix(points, twoPi));
  }
}
