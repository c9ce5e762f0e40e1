/**
 * The trajectory compiler of the arm branch: per-axis position deltas with
 * the axis-4 coupling compensation, and their conversion to integer step
 * counts and step velocities.
 *
 * `twoPi` stands for the value of `2*M_PI` and is a parameter here; the
 * specification functions below state what the loops compute, the methods
 * are the loops themselves.
 */
module Compiler {
  import opened Trajectory

  /** C's `round`: the nearest integer, halfway cases rounded away from zero. */
  function Round(x: real): (r: int)
    ensures x >= 0.0 ==> r as real - 0.5 <= x < r as real + 0.5
    ensures x < 0.0 ==> r as real - 0.5 < x <= r as real + 0.5
  {
    if x >= 0.0 then (x + 0.5).Floor else -((-x + 0.5).Floor)
  }

  /** Steps per revolution of the position axes. */
  const StepsPerTurn: real := 200000.0
  /** Velocity steps per revolution of axis 4, which also runs reversed. */
  const Axis4VelocityStepsPerTurn: real := 100000.0

  /** `(int) round(d*200000/(2*M_PI))`: a position delta in steps. */
  function PositionSteps(d: real, twoPi: real): int
    requires twoPi > 0.0
  {
    Round(d * StepsPerTurn / twoPi)
  }

  /** A velocity in steps per second; axis 4 uses half the resolution and the opposite sign. */
  function VelocitySteps(axis: nat, v: real, twoPi: real): int
    requires twoPi > 0.0
  {
    if axis == 4 then Round(v * Axis4VelocityStepsPerTurn / (-twoPi)) else Round(v * StepsPerTurn / twoPi)
  }

  /** `positions[i][j] - positions[i-1][j]`: the uncompensated delta between consecutive waypoints. */
  function StepDelta(points: seq<Waypoint>, i: nat, j: nat): real
    requires ArmPoints(points) && 1 <= i < |points| && j < ArmJoints
  {
    points[i].positions[j] - points[i - 1].positions[j]
  }

  /** A later row's entry: axis 4's delta is replaced by half the difference between axis 3's and its own. */
  function CompensatedDelta(points: seq<Waypoint>, i: nat, j: nat): real
    requires ArmPoints(points) && 1 <= i < |points| && j < ArmJoints
  {
    if j == 4 then (-1.0 * StepDelta(points, i, 4) + StepDelta(points, i, 3)) / 2.0
    else StepDelta(points, i, j)
  }

  /**
   * `diffs_pos[i][j]` once the delta loops are done: row 0 is measured from
   * the cached last commanded position and is not compensated.
   */
  function Diff(points: seq<Waypoint>, cache: seq<real>, i: nat, j: nat): real
    requires ArmPoints(points) && |cache| == ArmJoints && i < |points| && j < ArmJoints
  {
    if i == 0 then points[0].positions[j] - cache[j] else CompensatedDelta(points, i, j)
  }

  /** `relative_pos_steps` as a matrix: one row of five step deltas per waypoint. */
  function StepMatrix(points: seq<Waypoint>, cache: seq<real>, twoPi: real): (m: seq<seq<int>>)
    requires ArmPoints(points) && |cache| == ArmJoints && twoPi > 0.0
    ensures |m| == |points| && forall i :: 0 <= i < |m| ==> |m[i]| == ArmJoints
    ensures forall j :: 0 <= j < ArmJoints ==> m[0][j] == PositionSteps(points[0].positions[j] - cache[j], twoPi)
    ensures forall i, j :: 1 <= i < |m| && 0 <= j < ArmJoints ==> m[i][j] == PositionSteps(CompensatedDelta(points, i, j), twoPi)
  {
    seq(|points|, i requires 0 <= i < |points| =>
      seq(ArmJoints, j requires 0 <= j < ArmJoints => PositionSteps(Diff(points, cache, i, j), twoPi)))
  }

  /** `vel_steps` as a matrix: one row of five step velocities per waypoint. */
  function VelocityMatrix(points: seq<Waypoint>, twoPi: real): (m: seq<seq<int>>)
    requires ArmPoints(points) && twoPi > 0.0
    ensures |m| == |points| && forall i :: 0 <= i < |m| ==> |m[i]| == ArmJoints
    ensures forall i, j :: 0 <= i < |m| && 0 <= j < 4 && points[i].velocities[j] >= 0.0 ==> m[i][j] >= 0
    ensures forall i :: 0 <= i < |m| && points[i].velocities[4] >= 0.0 ==> m[i][4] <= 0
  {
    seq(|points|, i requires 0 <= i < |points| =>
      seq(ArmJoints, j requires 0 <= j < ArmJoints => VelocitySteps(j, points[i].velocities[j], twoPi)))
  }

  /**
   * The later-row loop: fills rows 1.. of `diffsPos` with waypoint-to-waypoint
   * deltas, joint by joint, overwriting axis 4's entry with its compensated
   * value; row 0 is left as it was.
   */
  method LaterRowDeltas(points: seq<Waypoint>, diffsPos: array2<real>)
    requires ArmPoints(points) && diffsPos.Length0 == |points| && diffsPos.Length1 == ArmJoints
    modifies diffsPos
    ensures forall j, i :: 1 <= j < |points| && 0 <= i < ArmJoints ==> diffsPos[j, i] == CompensatedDelta(points, j, i)
    ensures forall i :: 0 <= i < ArmJoints ==> diffsPos[0, i] == old(diffsPos[0, i])
  {
    var nPoints := |points|;
    for i := 0 to ArmJoints
      invariant forall j, k :: 1 <= j < nPoints && 0 <= k < i ==> diffsPos[j, k] == CompensatedDelta(points, j, k)
      invariant forall k :: 0 <= k < ArmJoints ==> diffsPos[0, k] == old(diffsPos[0, k])
    {
      for j := 1 to nPoints
        invariant forall j', k :: 1 <= j' < nPoints && 0 <= k < i ==> diffsPos[j', k] == CompensatedDelta(points, j', k)
        invariant forall j' :: 1 <= j' < j ==> diffsPos[j', i] == CompensatedDelta(points, j', i)
        invariant forall k :: 0 <= k < ArmJoints ==> diffsPos[0, k] == old(diffsPos[0, k])
      {
        diffsPos[j, i] := points[j].positions[i] - points[j - 1].positions[i];
        if i == 4 {
          diffsPos[j, i] := (-1.0 * diffsPos[j, i] + diffsPos[j, i - 1]) / 2.0;
        }
      }
    }
  }

  /**
   * The scaling loop: converts every delta to steps and every waypoint
   * velocity to step velocity, joint by joint.
   */
  method Scale(points: seq<Waypoint>, diffsPos: array2<real>, twoPi: real) returns (relativePosSteps: array2<int>, velSteps: array2<int>)
    requires ArmPoints(points) && diffsPos.Length0 == |points| && diffsPos.Length1 == ArmJoints && twoPi > 0.0
    ensures relativePosSteps.Length0 == velSteps.Length0 == |points|
    ensures relativePosSteps.Length1 == velSteps.Length1 == ArmJoints
    ensures forall j, i :: 0 <= j < |points| && 0 <= i < ArmJoints ==>
      relativePosSteps[j, i] == PositionSteps(diffsPos[j, i], twoPi) &&
      velSteps[j, i] == VelocitySteps(i, points[j].velocities[i], twoPi)
  {
    var nPoints := |points|;
    relativePosSteps := new int[nPoints, ArmJoints];
    velSteps := new int[nPoints, ArmJoints];
    for i := 0 to ArmJoints
      invariant forall j, k :: 0 <= j < nPoints && 0 <= k < i ==>
        relativePosSteps[j, k] == PositionSteps(diffsPos[j, k], twoPi) &&
        velSteps[j, k] == VelocitySteps(k, points[j].velocities[k], twoPi)
    {
      for j := 0 to nPoints
        invariant forall j', k :: 0 <= j' < nPoints && 0 <= k < i ==>
          relativePosSteps[j', k] == PositionSteps(diffsPos[j', k], twoPi) &&
          velSteps[j', k] == VelocitySteps(k, points[j'].velocities[k], twoPi)
        invariant forall j' :: 0 <= j' < j ==>
          relativePosSteps[j', i] == PositionSteps(diffsPos[j', i], twoPi) &&
          velSteps[j', i] == VelocitySteps(i, points[j'].velocities[i], twoPi)
      {
        relativePosSteps[j, i] := Round(diffsPos[j, i] * StepsPerTurn / twoPi);
        if i == 4 {
          velSteps[j, i] := Round(points[j].velocities[i] * Axis4VelocityStepsPerTurn / (-twoPi));
        } else {
          velSteps[j, i] := Round(points[j].velocities[i] * StepsPerTurn / twoPi);
        }
      }
    }
  }

  /** The relative motion axis `j` is commanded over the first `n` rows. */
  function DiffSum(points: seq<Waypoint>, cache: seq<real>, j: nat, n: nat): real
    requires ArmPoints(points) && |cache| == ArmJoints && n <= |points| && j < ArmJoints
  {
    if n == 0 then 0.0 else DiffSum(points, cache, j, n - 1) + Diff(points, cache, n - 1, j)
  }

  /** The steps axis `j` is commanded over the first `n` rows. */
  function StepSum(points: seq<Waypoint>, cache: seq<real>, twoPi: real, j: nat, n: nat): int
    requires ArmPoints(points) && |cache| == ArmJoints && n <= |points| && j < ArmJoints && twoPi > 0.0
  {
    if n == 0 then 0 else StepSum(points, cache, twoPi, j, n - 1) + PositionSteps(Diff(points, cache, n - 1, j), twoPi)
  }

  /**
   * The deltas telescope: over the first `n` rows axes 0-3 are moved from the
   * cached position to waypoint `n-1`; axis 4 is moved to its first waypoint,
   * then by half of axis 3's travel less its own.
   */
  lemma {:induction false} TotalDisplacement(points: seq<Waypoint>, cache: seq<real>, j: nat, n: nat)
    requires ArmPoints(points) && |cache| == ArmJoints && 1 <= n <= |points| && j < ArmJoints
    ensures j < 4 ==> DiffSum(points, cache, j, n) == points[n - 1].positions[j] - cache[j]
    ensures j == 4 ==>
      DiffSum(points, cache, j, n) ==
        (points[0].positions[4] - cache[4]) +
        ((points[n - 1].positions[3] - points[0].positions[3]) - (points[n - 1].positions[4] - points[0].positions[4])) / 2.0
  {
    if n > 1 {
      TotalDisplacement(points, cache, j, n - 1);
    }
  }

  /**
   * Rounding each row separately lets the steps an axis is commanded drift
   * from its exact travel by at most half a step per row.
   */
  lemma {:induction false} RoundingDrift(points: seq<Waypoint>, cache: seq<real>, twoPi: real, j: nat, n: nat)
    requires ArmPoints(points) && |cache| == ArmJoints && n <= |points| && j < ArmJoints && twoPi > 0.0
    ensures -0.5 * n as real <= StepSum(points, cache, twoPi, j, n) as real - DiffSum(points, cache, j, n) * StepsPerTurn / twoPi <= 0.5 * n as real
  {
    if n > 0 {
      RoundingDrift(points, cache, twoPi, j, n - 1);
      var a, d := DiffSum(points, cache, j, n - 1), Diff(points, cache, n - 1, j);
      ScaleAdds(a, d, twoPi);
      DriftStep(StepSum(points, cache, twoPi, j, n - 1), PositionSteps(d, twoPi),
                a * StepsPerTurn / twoPi, d * StepsPerTurn / twoPi, 0.5 * (n - 1) as real);
    }
  }

  /** Scaling to steps distributes over a sum of deltas. */
  lemma ScaleAdds(a: real, d: real, twoPi: real)
    requires twoPi > 0.0
    ensures (a + d) * StepsPerTurn / twoPi == a * StepsPerTurn / twoPi + d * StepsPerTurn / twoPi
  {
  }

  /** One more rounded term widens the drift bound by half a step. */
  lemma DriftStep(sum: int, r: int, x: real, y: real, bound: real)
    requires -bound <= sum as real - x <= bound
    requires y - 0.5 <= r as real <= y + 0.5
    ensures -(bound + 0.5) <= (sum + r) as real - (x + y) <= bound + 0.5
  {
  }

  /** A whole number of revolutions scales exactly: `k` turns are `200000*k` steps. */
  lemma WholeTurns(k: int, axis: nat, twoPi: real)
    requires twoPi > 0.0 && axis < ArmJoints
    ensures PositionSteps(k as real * twoPi, twoPi) == 200000 * k
    ensures VelocitySteps(axis, k as real * twoPi, twoPi) == if axis == 4 then -100000 * k else 200000 * k
  {
    assert k as real * twoPi * StepsPerTurn / twoPi == (200000 * k) as real;
    assert k as real * twoPi * Axis4VelocityStepsPerTurn / (-twoPi) == (-100000 * k) as real;
  }

  /** C's `round` is symmetric about zero, so a reversed move is commanded as exactly the negated steps. */
  lemma ReversedMove(d: real, twoPi: real)
    requires twoPi > 0.0
    ensures PositionSteps(-d, twoPi) == -PositionSteps(d, twoPi)
  {
    assert -d * StepsPerTurn / twoPi == -(d * StepsPerTurn / twoPi);
  }
}
