/** The collision geometry every planner version shares: a rectangular car against a disc hazard. */
module Geometry {
  import opened Numbers

  const HALF_WIDTH := 24.0
  const HALF_HEIGHT := 18.0
  const SIZE_FACTOR := 0.76

  datatype Disc = Disc(x: real, y: real, size: real)

  /** Stand-ins for `Math.sqrt(dx * dx + dy * dy)` and for the exponential near-miss penalty. */
  datatype Analysis = Analysis(dist: (real, real) -> real, decay: real -> real)

  function Radius(z: Disc, margin: real): real {
    z.size * SIZE_FACTOR + margin
  }

  predicate CollisionAt(px: real, py: real, z: Disc, margin: real) {
    var rr := Radius(z, margin);
    var cx := Max(px - HALF_WIDTH, Min(z.x, px + HALF_WIDTH));
    var cy := Max(py - HALF_HEIGHT, Min(z.y, py + HALF_HEIGHT));
    var dx := z.x - cx;
    var dy := z.y - cy;
    dx * dx + dy * dy <= rr * rr
  }

  /** Distance from the car's edge to a coordinate, zero inside the car. */
  function Gap(p: real, z: real, half: real): real {
    Max(0.0, Abs(z - p) - half)
  }

  function ClearanceAt(m: Analysis, px: real, py: real, z: Disc, margin: real): real {
    m.dist(Gap(px, z.x, HALF_WIDTH), Gap(py, z.y, HALF_HEIGHT)) - Radius(z, margin)
  }

  /** `dist` behaves as the Euclidean norm at (dx, dy). */
  ghost predicate EuclideanAt(m: Analysis, dx: real, dy: real) {
    m.dist(dx, dy) >= 0.0 && m.dist(dx, dy) * m.dist(dx, dy) == dx * dx + dy * dy
  }

  /** The boolean collision test and the signed clearance agree: a collision is exactly a
      clearance that is not positive. */
  lemma CollisionIffNoClearance(m: Analysis, px: real, py: real, z: Disc, margin: real)
    requires Radius(z, margin) >= 0.0
    requires EuclideanAt(m, Gap(px, z.x, HALF_WIDTH), Gap(py, z.y, HALF_HEIGHT))
    ensures CollisionAt(px, py, z, margin) <==> ClearanceAt(m, px, py, z, margin) <= 0.0
  {
    var gx, gy := Gap(px, z.x, HALF_WIDTH), Gap(py, z.y, HALF_HEIGHT);
    var dx := z.x - Max(px - HALF_WIDTH, Min(z.x, px + HALF_WIDTH));
    var dy := z.y - Max(py - HALF_HEIGHT, Min(z.y, py + HALF_HEIGHT));
    assert (dx == gx || dx == -gx) && (dy == gy || dy == -gy);
    assert dx * dx == gx * gx && dy * dy == gy * gy;
    SquareOrder(m.dist(gx, gy), Radius(z, margin));
  }

  /** A disc can touch the car only if its centre is within half a car plus its radius vertically. */
  lemma CollisionNeedsVerticalReach(px: real, py: real, z: Disc, margin: real)
    requires Radius(z, margin) >= 0.0
    requires CollisionAt(px, py, z, margin)
    ensures Abs(z.y - py) <= HALF_HEIGHT + Radius(z, margin)
  {
    var dx := z.x - Max(px - HALF_WIDTH, Min(z.x, px + HALF_WIDTH));
    var dy := z.y - Max(py - HALF_HEIGHT, Min(z.y, py + HALF_HEIGHT));
    assert dx * dx >= 0.0;
    assert dy * dy == Abs(dy) * Abs(dy);
    SquareOrder(Abs(dy), Radius(z, margin));
  }

  /** A disc straight above or below the car collides exactly within that reach. */
  lemma AlignedCollision(px: real, py: real, z: Disc, margin: real)
    requires Radius(z, margin) >= 0.0 && z.x == px
    ensures CollisionAt(px, py, z, margin) <==> Abs(z.y - py) <= HALF_HEIGHT + Radius(z, margin)
  {
    var dx := z.x - Max(px - HALF_WIDTH, Min(z.x, px + HALF_WIDTH));
    var dy := z.y - Max(py - HALF_HEIGHT, Min(z.y, py + HALF_HEIGHT));
    assert dx == 0.0;
    assert dy * dy == Abs(dy) * Abs(dy);
    SquareOrder(Abs(dy), Radius(z, margin));
  }
}
