/** utils/randomization.js: uniform positions on a `width x height`
    rectangle centred on the origin. `Math.random()` is the draw parameters. */
module Randomization {
  import opened Environment
  import Placement

  datatype Boundary = Boundary(width: real, height: real)

  /** `getRandomPosition(boundary)`: `x` from the first draw, `z` from the
      second, `y` fixed at 0. */
  function RandomPosition(boundary: Boundary, rx: real, rz: real): (p: Point3)
    ensures p.y == 0.0
    ensures 0.0 <= rx < 1.0 && boundary.width > 0.0 ==> -boundary.width / 2.0 <= p.x < boundary.width / 2.0
    ensures 0.0 <= rz < 1.0 && boundary.height > 0.0 ==> -boundary.height / 2.0 <= p.z < boundary.height / 2.0
  {
    Placement.Jitter(boundary.width, rx);
    Placement.Jitter(boundary.height, rz);
    Point3(Placement.Offset(rx, boundary.width) - boundary.width / 2.0, 0.0,
           Placement.Offset(rz, boundary.height) - boundary.height / 2.0)
  }

  predicate InBoundary(boundary: Boundary, p: Point3)
  {
    p.y == 0.0 &&
    -boundary.width / 2.0 <= p.x < boundary.width / 2.0 &&
    -boundary.height / 2.0 <= p.z < boundary.height / 2.0
  }

  /** `randomizeObjects(objectCount, boundary)`. Object `i` takes draws
      `2 * i` and `2 * i + 1`; a count of zero or less gives no objects. */
  method RandomizeObjects(objectCount: int, boundary: Boundary, draws: seq<real>) returns (positions: seq<Point3>)
    requires objectCount <= 0 || 2 * objectCount <= |draws|
    ensures |positions| == if objectCount > 0 then objectCount else 0
    ensures forall i :: 0 <= i < |positions| ==>
              positions[i] == RandomPosition(boundary, draws[2 * i], draws[2 * i + 1])
    ensures Placement.AllDraws(draws) && boundary.width > 0.0 && boundary.height > 0.0 ==>
              forall i :: 0 <= i < |positions| ==> InBoundary(boundary, positions[i])
  {
    positions := [];
    var i := 0;
    while i < objectCount
      invariant 0 <= i && (objectCount > 0 ==> i <= objectCount) && (objectCount <= 0 ==> i == 0)
      invariant |positions| == i
      invariant forall k :: 0 <= k < i ==> positions[k] == RandomPosition(boundary, draws[2 * k], draws[2 * k + 1])
    {
      positions := positions + [RandomPosition(boundary, draws[2 * i], draws[2 * i + 1])];
      i := i + 1;
    }
    if Placement.AllDraws(draws) && boundary.width > 0.0 && boundary.height > 0.0 {
      forall i | 0 <= i < |positions| ensures InBoundary(boundary, positions[i]) {
        assert 0.0 <= draws[2 * i] < 1.0 && 0.0 <= draws[2 * i + 1] < 1.0;
      }
    }
  }
}
