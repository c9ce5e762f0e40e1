# Pentaxis controller handle in Dafny

This project models `PentaxisControllerHandle`, the MoveIt controller handle
that drives the five-joint Pentaxis arm and its gripper through a Galil
DMC-4060 motion controller, and proves properties of that model.

The handle keeps one piece of state between calls, `current_joint_state_pos`.
The constructor zeroes it. An arm call overwrites it with its last waypoint
as soon as the connection is up, before the program is downloaded. So it holds
the last waypoint of the last arm call that connected, even if that call's
download or execution then threw.
`sendTrajectory` then works by joint count:

- **Five joints (the arm).** It compiles the trajectory into a PVT
  (position, velocity, time) motion program:
  - row 0 is measured from the cached position, and the cache is then
    overwritten with the last waypoint;
  - each later row is measured from the previous waypoint;
  - in each later row, axis 4's delta is replaced by `(-raw + delta3)/2`, a
    compensation for the coupled transmission;
  - every entry is scaled to steps with C's `round`.

  It writes the program text, downloads it, runs `XQ #PVT`, and waits
  `round(1000·t + 500)` ms for the controller's message. It accepts only a
  reply that starts with `DONE`.
- **One joint (the gripper).** It closes or opens the gripper with two
  commands, chosen by comparing the first and last positions.
- **Any other joint count.** It only connects.
- **Errors.** A string thrown by the Galil link makes the call return false.
  Whatever was already done is kept.

Modules:

- `Wrappers`: `Option`.
- `Decimal`: the decimal rendering of integers that the output stream
  performs, and a reader for it.
- `Trajectory`: the trajectory and joint-state messages.
- `Compiler`: the later-row delta and compensation loop (`LaterRowDeltas`,
  proved against `CompensatedDelta`) and the scaling loop (`Scale`, proved
  against `PositionSteps` and `VelocitySteps`), with the specification
  functions `Diff`, `StepMatrix` and `VelocityMatrix`.
- `PvtProgram`: the program text.
  - `Encode` is the text as a function of the step and velocity matrices.
  - `BuildProgram` writes it row by row, as the stream does, and is proved
    equal to `Encode`.
  - `Segments` is an independent, index-based description of the
    assignments the program stands for. `DecodeEncode` proves that the text
    reads back as exactly those assignments.
- `PvtReader`: a reader for the controller's `PVx=v0,v1,...` assignment
  dialect, used by `DecodeEncode`.
- `ControllerHandle`: the `PentaxisControllerHandle` class, with the cache as
  a five-element `array<real>`.
  - `CompileArm` holds the row-0 loop and the cache update. It hands on to
    `FinishProgram`, which with `CompiledMatrices` ties the filled arrays to
    `Diff`, `StepMatrix` and `VelocityMatrix`.
  - `SendTrajectory` is proved to produce exactly the outcome given by the
    specification function `Send`. The outcome is the return value, the
    device calls made, the joint state published, and the new cache.
  - Lemmas about `Send` state what each branch promises.

Modelling choices:

- **The Galil link.** It is an input and an output, not code. The calls the
  handle makes are returned as a list of `DeviceCall`s: the connecting
  constructor, `connection()`, `libraryVersion()`, `programDownload`,
  `command` and `message`. A `Device` value says which call, if any, throws,
  and what `message` returns.
- **Numbers.** Positions, velocities and times are `real`. `2*M_PI` is the
  parameter `twoPi > 0`, a constant of the handle. C's `round` (halfway
  cases away from zero) is modelled exactly by `Compiler.Round`.
- **Publishing.** The joint state that would be published is returned as
  `published`.
- **Preconditions.** The code indexes `points[0]`, `points[n_points-1]` and
  the first five positions and velocities without checks; reading outside
  them is undefined behaviour in C++. `SendTrajectory` therefore requires
  this for the branch that is taken (`Indexable`):
  - five joint names: at least one point, each with five positions and five
    velocities;
  - one joint name: a first position in the first and in the last point.
- **The deadline.** The completion deadline is `round(t*1000 + 500)`:
  `t = 0.0012` s gives 501 ms.

## Model

| member | source | states |
|---|---|---|
| `Decimal.IntToString` | moveit_controller_manager_pentaxis/src/moveit_controller_manager_pentaxis_safe.cpp:157 | the stream's rendering of an `int` is non-empty, starts with `-` exactly for negative values, and is all digits after the sign |
| `Decimal.ParseIntToString` | moveit_controller_manager_pentaxis/src/moveit_controller_manager_pentaxis_safe.cpp:157-167 | reading a rendered integer back, when a non-digit or the end follows, gives the integer and the rest of the text |
| `Compiler.Round` | moveit_controller_manager_pentaxis/src/moveit_controller_manager_pentaxis_safe.cpp:147 | `round` gives the nearest integer, halfway cases away from zero |
| `Compiler.LaterRowDeltas` | moveit_controller_manager_pentaxis/src/moveit_controller_manager_pentaxis_safe.cpp:138-144 | each later row holds the difference from the previous waypoint, and axis 4 holds `(-raw + axis-3 delta)/2` of the same row; row 0 is untouched |
| `Compiler.StepMatrix` | moveit_controller_manager_pentaxis/src/moveit_controller_manager_pentaxis_safe.cpp:131-152 | one row per waypoint, five entries each; row 0 is the scaled move from the cache to the first waypoint, and each later row the scaled compensated delta from the previous waypoint |
| `Compiler.VelocityMatrix` | moveit_controller_manager_pentaxis/src/moveit_controller_manager_pentaxis_safe.cpp:145-152 | one row per waypoint, five entries each; axes 0-3 keep the sign of a non-negative velocity, and axis 4 flips it |
| `Compiler.Scale` | moveit_controller_manager_pentaxis/src/moveit_controller_manager_pentaxis_safe.cpp:145-152 | every step entry is `round(d·200000/2π)`; every velocity entry is `round(v·200000/2π)` for axes 0-3 and `round(v·100000/(-2π))` for axis 4 |
| `Compiler.TotalDisplacement` | moveit_controller_manager_pentaxis/src/moveit_controller_manager_pentaxis_safe.cpp:131-144 | the first n rows of deltas add up to the move from the cache to waypoint n-1 for axes 0-3, and to the compensated move for axis 4 |
| `Compiler.RoundingDrift` | moveit_controller_manager_pentaxis/src/moveit_controller_manager_pentaxis_safe.cpp:145-152 | the commanded steps over n rows differ from the exact scaled displacement by at most n/2 steps |
| `Compiler.WholeTurns` | moveit_controller_manager_pentaxis/src/moveit_controller_manager_pentaxis_safe.cpp:145-152 | k whole turns give 200000·k steps; an axis-4 velocity of k turns gives -100000·k, other axes 200000·k |
| `Compiler.ReversedMove` | moveit_controller_manager_pentaxis/src/moveit_controller_manager_pentaxis_safe.cpp:147 | reversing a move reverses its step count exactly |
| `PvtProgram.WriteFirstRow` | moveit_controller_manager_pentaxis/src/moveit_controller_manager_pentaxis_safe.cpp:157-161 | appends row 0 as two, two and one assignments per line, each with the time code 128 |
| `PvtProgram.WriteRow` | moveit_controller_manager_pentaxis/src/moveit_controller_manager_pentaxis_safe.cpp:163-167 | appends a later row as three and two assignments per line, without time code |
| `PvtProgram.Encode` | moveit_controller_manager_pentaxis/src/moveit_controller_manager_pentaxis_safe.cpp:156-170 | the program text starts with the `#PVT` label and ends with the epilogue that waits for motion, reports `DONE` and ends |
| `PvtProgram.BuildProgram` | moveit_controller_manager_pentaxis/src/moveit_controller_manager_pentaxis_safe.cpp:156-170 | the text the stream holds is the label, row 0, every later row in order, the zero row and the epilogue |
| `PvtProgram.SegmentsLayout` | moveit_controller_manager_pentaxis/src/moveit_controller_manager_pentaxis_safe.cpp:156-170 | a program stands for n+1 groups of `PVA`..`PVE`, and only the first group carries the time code |
| `PvtProgram.DecodeEncode` | moveit_controller_manager_pentaxis/src/moveit_controller_manager_pentaxis_safe.cpp:156-170 | the program text reads back as exactly the assignments of each waypoint's steps and velocities, then the zeros, followed by the epilogue |
| `PvtProgram.EncodeInjective` | moveit_controller_manager_pentaxis/src/moveit_controller_manager_pentaxis_safe.cpp:156-170 | different step or velocity matrices never give the same program text |
| `ControllerHandle.Timeout` | moveit_controller_manager_pentaxis/src/moveit_controller_manager_pentaxis_safe.cpp:178 | the wait is within half a millisecond of the last waypoint's time plus 500 ms, and at least 500 ms |
| `ControllerHandle.Compare` | moveit_controller_manager_pentaxis/src/moveit_controller_manager_pentaxis_safe.cpp:180 | string comparison is zero exactly for equal strings |
| `ControllerHandle.Completed` | moveit_controller_manager_pentaxis/src/moveit_controller_manager_pentaxis_safe.cpp:180-184 | the completion test holds exactly when the reply has at least four characters and they are `DONE` |
| `ControllerHandle.Issued` | moveit_controller_manager_pentaxis/src/moveit_controller_manager_pentaxis_safe.cpp:222-225 | the calls made are a prefix of the planned ones, ending with the call that throws, or all of them |
| `ControllerHandle.Call` | moveit_controller_manager_pentaxis/src/moveit_controller_manager_pentaxis_safe.cpp:122-225 | one call on the Galil link is appended to those made so far, and it throws exactly when the device throws at that call's index |
| `ControllerHandle.Connect` | moveit_controller_manager_pentaxis/src/moveit_controller_manager_pentaxis_safe.cpp:124-128 | connects to 192.168.1.2, then queries the connection and the library version, stopping at a throw; reports a throw exactly when one of these three calls throws |
| `ControllerHandle.RunProgram` | moveit_controller_manager_pentaxis/src/moveit_controller_manager_pentaxis_safe.cpp:173-184 | downloads, executes `#PVT` and waits in that order, stopping at a throw; accepted exactly when nothing throws and the reply starts with `DONE` |
| `ControllerHandle.OperateGripper` | moveit_controller_manager_pentaxis/src/moveit_controller_manager_pentaxis_safe.cpp:198-209 | sends `JGF= 1500` then `BG F` when closing, `PAF= 0` then `BG F` when opening, stopping at a throw |
| `ControllerHandle.FinishProgram` | moveit_controller_manager_pentaxis/src/moveit_controller_manager_pentaxis_safe.cpp:138-170 | from row 0's deltas on, the later rows, the scaling and the writer produce the program of the trajectory measured from the cache |
| `ControllerHandle.CompiledMatrices` | moveit_controller_manager_pentaxis/src/moveit_controller_manager_pentaxis_safe.cpp:145-152 | the scaled arrays are the step and velocity matrices of the specification |
| `ControllerHandle.PentaxisControllerHandle.constructor` | moveit_controller_manager_pentaxis/src/moveit_controller_manager_pentaxis_safe.cpp:62-70 | a new handle's cache holds five zeros |
| `ControllerHandle.PentaxisControllerHandle.GetJoints` | moveit_controller_manager_pentaxis/src/moveit_controller_manager_pentaxis_safe.cpp:96-98 | returns the joint names the handle was created with |
| `ControllerHandle.PentaxisControllerHandle.CompileArm` | moveit_controller_manager_pentaxis/src/moveit_controller_manager_pentaxis_safe.cpp:131-170 | the program is compiled against the cache as it was before the call, and the cache ends as the last waypoint's five positions |
| `ControllerHandle.PentaxisControllerHandle.SendTrajectory` | moveit_controller_manager_pentaxis/src/moveit_controller_manager_pentaxis_safe.cpp:111-227 | the return value, calls made, state published and new cache are those of `Send` for the old cache |
| `ControllerHandle.Send` | moveit_controller_manager_pentaxis/src/moveit_controller_manager_pentaxis_safe.cpp:111-227 | a rejected call publishes nothing; the new cache is the last waypoint once an arm call has connected, and the old cache otherwise |
| `ControllerHandle.SendCalls` | moveit_controller_manager_pentaxis/src/moveit_controller_manager_pentaxis_safe.cpp:122-225 | the calls made are the planned ones up to and including a throw, and all of them when the call is accepted |
| `ControllerHandle.ThrowMeansRejected` | moveit_controller_manager_pentaxis/src/moveit_controller_manager_pentaxis_safe.cpp:222-225 | when a call throws, the handle returns false, publishes nothing and makes no call after the throwing one |
| `ControllerHandle.ArmOutcome` | moveit_controller_manager_pentaxis/src/moveit_controller_manager_pentaxis_safe.cpp:173-194 | the arm's calls are connect, download, `XQ #PVT`, wait; it returns true exactly when nothing throws and the reply starts with `DONE`, and publishes the last waypoint exactly then |
| `ControllerHandle.CacheWrittenBeforeDownload` | moveit_controller_manager_pentaxis/src/moveit_controller_manager_pentaxis_safe.cpp:135-184 | once connected, the new cache is the last waypoint's positions even when the download, execution or wait fails; a failed connection keeps the old cache |
| `ControllerHandle.GripperOutcome` | moveit_controller_manager_pentaxis/src/moveit_controller_manager_pentaxis_safe.cpp:195-219 | closes exactly when the first position exceeds the last, else opens; on success it publishes the last waypoint with the gripper position replaced by -0.020 when closing or 0.0 when opening, and header, names, other positions, velocities and effort copied; on failure it publishes nothing; it never downloads or waits, and it keeps the cache |
| `ControllerHandle.OtherJointCounts` | moveit_controller_manager_pentaxis/src/moveit_controller_manager_pentaxis_safe.cpp:130-221 | any other joint count only connects: no command, the cache kept, nothing published, true unless a call throws |
| `ControllerHandle.ConsecutiveArmCalls` | moveit_controller_manager_pentaxis/src/moveit_controller_manager_pentaxis_safe.cpp:131-137 | once the first arm call has connected, a second one measures row 0 from the first one's last waypoint, whether or not the first was then accepted |
| `ControllerHandle.FirstCallFromHome` | moveit_controller_manager_pentaxis/src/moveit_controller_manager_pentaxis_safe.cpp:67-69 | with the zeroed cache, row 0 is the first waypoint's positions themselves |
| `ControllerHandle.ProgramReadsBack` | moveit_controller_manager_pentaxis/src/moveit_controller_manager_pentaxis_safe.cpp:145-170 | the downloaded program reads back as the compiled steps and velocities of every waypoint |

## Left out

- `doHoming`, which the constructor runs for a five-joint handle, is not modelled. It downloads a fixed homing program and runs it, with no logic of its own.
- The Galil link library is not modelled: connection management, the wire protocol and what `connection()` and `libraryVersion()` return. Only the order of calls, which call throws, and the reply to `message` are modelled.
- Only thrown strings are modelled. The code catches only `std::string`; any other exception would leave `sendTrajectory` and is not modelled.
- Floating point is not modelled. `float` for the cache and the deltas, `double` arithmetic, and the value of `M_PI` are replaced by exact reals and the parameter `twoPi`.
- `ControllerHandle.Timeout`: does not model overflow of the `(int)` cast at line 178; the deadline is an unbounded integer.
- `Compiler.Scale`: does not model overflow of the `(int)` cast, which is undefined for values outside 32 bits.
- The exact `float` value the gripper reports (`-0.020` rounded to single precision) is not modelled; the model reports the real -0.020.
- ROS plumbing is not modelled:
  - creating the publisher and publishing (the published state is returned instead);
  - `ROS_INFO` logging and printing the caught exception;
  - `printTrajectory`.
- The controller-manager registry and its XmlRpc `controller_list` parsing are not modelled. They are framework glue.
- `cancelExecution`, `waitForExecution` and `getLastExecutionStatus` are not modelled. They return constants.
- Timing is not modelled: the blocking wait itself and calls overlapping in time. The deadline is only an argument of the `message` call.
