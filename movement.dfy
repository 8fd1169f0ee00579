/**
 * The movement rule shared by the server's tick (server/game_state.py) and the client's
 * predictor (client/interpolation.py), and the distance test used for collisions.
 * `math.sqrt` is not a Dafny function: where the source takes a square root, the root is
 * a parameter whose precondition pins it down (the non-negative root is unique), and
 * distance comparisons are made on squared distances, proved equivalent.
 */
module Movement {

  datatype Point = Point(x: real, y: real)

  /** `max(lo, min(hi, v))` */
  function Clamp(lo: real, hi: real, v: real): (r: real)
    ensures lo <= hi ==> lo <= r <= hi
    ensures lo <= v <= hi ==> r == v
    ensures v < lo ==> r == lo
    ensures lo <= hi && hi < v ==> r == hi
  {
    var m := if hi < v then hi else v;
    if lo > m then lo else m
  }

  /** `mag` is `math.sqrt(dx ** 2 + dy ** 2)`. */
  predicate IsMagnitude(dx: int, dy: int, mag: real)
  {
    mag >= 0.0 && mag * mag == (dx * dx + dy * dy) as real
  }

  /** The unclamped displacement along one axis: `d / magnitude * speed * delta_time`. */
  function Displacement(d: int, mag: real, speed: real, dt: real): real
    requires mag != 0.0
  {
    d as real / mag * speed * dt
  }

  /**
   * One movement step: with a non-zero input the position moves by the normalised input
   * scaled by speed and delta time, then each coordinate is clamped to the board inset by
   * the radius; with zero input the position is left as it is.
   */
  function Step(p: Point, dx: int, dy: int, mag: real, speed: real, dt: real,
                width: real, height: real, radius: real): (r: Point)
    requires IsMagnitude(dx, dy, mag)
    ensures dx == 0 && dy == 0 ==> r == p
    ensures (dx != 0 || dy != 0) && radius <= width - radius ==> radius <= r.x <= width - radius
    ensures (dx != 0 || dy != 0) && radius <= height - radius ==> radius <= r.y <= height - radius
  {
    if dx != 0 || dy != 0 then
      assert mag != 0.0 by { assert mag * mag > 0.0; }
      var newX := p.x + Displacement(dx, mag, speed, dt);
      var newY := p.y + Displacement(dy, mag, speed, dt);
      Point(Clamp(radius, width - radius, newX), Clamp(radius, height - radius, newY))
    else
      p
  }

  /** A position within the board inset by `radius` on every side. */
  predicate InBox(p: Point, width: real, height: real, radius: real)
  {
    radius <= p.x <= width - radius && radius <= p.y <= height - radius
  }

  /** The normalised input direction has length one, diagonal or not. */
  lemma UnitDirection(dx: int, dy: int, mag: real)
    requires IsMagnitude(dx, dy, mag)
    requires dx != 0 || dy != 0
    ensures mag > 0.0
    ensures (dx as real / mag) * (dx as real / mag) + (dy as real / mag) * (dy as real / mag) == 1.0
  {
    assert mag * mag > 0.0;
    var a, b := dx as real / mag, dy as real / mag;
    assert a * mag == dx as real;
    assert b * mag == dy as real;
    assert (dx as real) * (dx as real) + (dy as real) * (dy as real) == mag * mag;
    assert (a * mag) * (a * mag) == (dx as real) * (dx as real);
    assert (b * mag) * (b * mag) == (dy as real) * (dy as real);
    assert (a * a + b * b) * (mag * mag) == (a * mag) * (a * mag) + (b * mag) * (b * mag);
    assert (a * a + b * b - 1.0) * (mag * mag) == 0.0;
  }

  /**
   * Normalisation invariant: with a non-zero input, the unclamped displacement has length
   * `speed * dt` (stated on squares), for axis-aligned and diagonal input alike.
   */
  lemma DisplacementLength(dx: int, dy: int, mag: real, speed: real, dt: real)
    requires IsMagnitude(dx, dy, mag)
    requires dx != 0 || dy != 0
    ensures mag != 0.0
    ensures var ux, uy := Displacement(dx, mag, speed, dt), Displacement(dy, mag, speed, dt);
            ux * ux + uy * uy == (speed * dt) * (speed * dt)
  {
    UnitDirection(dx, dy, mag);
    var a, b := dx as real / mag, dy as real / mag;
    var k := speed * dt;
    assert Displacement(dx, mag, speed, dt) == a * k;
    assert Displacement(dy, mag, speed, dt) == b * k;
    assert (a * k) * (a * k) + (b * k) * (b * k) == (a * a + b * b) * (k * k);
  }

  /**
   * When the unclamped position stays on the board, a step moves the point by exactly the
   * displacement, whose length is `speed * dt`.
   */
  lemma StepUnclamped(p: Point, dx: int, dy: int, mag: real, speed: real, dt: real,
                      width: real, height: real, radius: real)
    requires IsMagnitude(dx, dy, mag)
    requires dx != 0 || dy != 0
    requires mag != 0.0
    requires InBox(Point(p.x + Displacement(dx, mag, speed, dt), p.y + Displacement(dy, mag, speed, dt)),
                   width, height, radius)
    ensures var r := Step(p, dx, dy, mag, speed, dt, width, height, radius);
            (r.x - p.x) * (r.x - p.x) + (r.y - p.y) * (r.y - p.y) == (speed * dt) * (speed * dt)
  {
    DisplacementLength(dx, dy, mag, speed, dt);
    var ux, uy := Displacement(dx, mag, speed, dt), Displacement(dy, mag, speed, dt);
    var r := Step(p, dx, dy, mag, speed, dt, width, height, radius);
    assert r == Point(p.x + ux, p.y + uy);
    assert r.x - p.x == ux && r.y - p.y == uy;
  }

  /** Squared Euclidean distance. */
  function SqDist(a: Point, b: Point): (r: real)
    ensures r >= 0.0
  {
    (a.x - b.x) * (a.x - b.x) + (a.y - b.y) * (a.y - b.y)
  }

  /** `distance < limit`, where distance is the Euclidean distance between the points. */
  predicate WithinDistance(a: Point, b: Point, limit: real)
  {
    limit > 0.0 && SqDist(a, b) < limit * limit
  }

  /** The squared test agrees with the source's test on the square root, for every limit. */
  lemma WithinDistanceIffDistanceBelow(a: Point, b: Point, limit: real, d: real)
    requires d >= 0.0 && d * d == SqDist(a, b)
    ensures WithinDistance(a, b, limit) <==> d < limit
  {
    if d < limit {
      assert limit > 0.0;
      var dd, dl, ll := d * d, d * limit, limit * limit;
      assert d * (limit - d) >= 0.0;
      assert dd <= dl;
      assert (limit - d) * limit > 0.0;
      assert dl < ll;
      assert SqDist(a, b) == dd < ll;
    } else if limit > 0.0 {
      assert (d - limit) * limit >= 0.0;
      assert (d - limit) * d >= 0.0;
      assert d * d >= limit * limit;
    }
  }
}
