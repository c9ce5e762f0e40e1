/**
 * The messages the controller handle consumes and produces: a joint
 * trajectory (`moveit_msgs/RobotTrajectory`'s joint part) and the joint-state
 * snapshot (`sensor_msgs/JointState`) it echoes after a motion.
 * Angles are radians, velocities radians per second, times seconds.
 */
module Trajectory {

  /** `std_msgs/Header`, carried through to the published state unchanged. */
  datatype Header = Header(sequence: nat, stamp: real, frameId: string)

  /** One trajectory point; `positions[j]` and `velocities[j]` belong to joint `j`. */
  datatype Waypoint = Waypoint(positions: seq<real>, velocities: seq<real>, effort: seq<real>, timeFromStart: real)

  datatype JointTrajectory = JointTrajectory(header: Header, jointNames: seq<string>, points: seq<Waypoint>)

  /** The state reported after a motion: an open-loop echo, nothing is measured. */
  datatype JointState = JointState(header: Header, name: seq<string>, position: seq<real>, velocity: seq<real>, effort: seq<real>)

  /** The number of joints of the arm group. */
  const ArmJoints := 5

  /** What the arm branch indexes: at least one point, each with five positions and five velocities. */
  predicate ArmPoints(points: seq<Waypoint>)
  {
    |points| >= 1 &&
    forall k :: 0 <= k < |points| ==> |points[k].positions| >= ArmJoints && |points[k].velocities| >= ArmJoints
  }

  /** What the gripper branch indexes: the first position of the first and of the last point. */
  predicate GripperPoints(points: seq<Waypoint>)
  {
    |points| >= 1 && |points[0].positions| >= 1 && |points[|points| - 1].positions| >= 1
  }

  function Last(points: seq<Waypoint>): Waypoint
    requires |points| >= 1
  {
    points[|points| - 1]
  }
}
