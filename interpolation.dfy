/**
 * Client-side smoothing (client/interpolation.py): a bounded, time-ordered buffer of
 * position snapshots per remote entity, rendered a fixed delay behind the clock by linear
 * interpolation; the local player's predictor, which runs the server's movement rule and
 * reconciles with server positions in three bands; and the manager that keeps one
 * interpolated entity per id.
 */
module Interpolation {
  import opened Wrappers
  import opened Constants
  import opened Movement

  /** PositionSnapshot. */
  datatype Snapshot = Snapshot(timestamp: real, x: real, y: real)

  function PosOf(s: Snapshot): Point
  {
    Point(s.x, s.y)
  }

  /** Timestamps never decrease from front to back. */
  ghost predicate SortedByTime(b: seq<Snapshot>)
  {
    forall i, j :: 0 <= i <= j < |b| ==> b[i].timestamp <= b[j].timestamp
  }

  /**
   * Length of the longest front prefix whose timestamps are at or before `t`: the index of
   * the first snapshot strictly later than `t`, or the length when there is none.
   */
  function FirstLater(b: seq<Snapshot>, t: real): (k: nat)
    ensures k <= |b|
    ensures forall i :: 0 <= i < k ==> b[i].timestamp <= t
    ensures k < |b| ==> b[k].timestamp > t
  {
    if b == [] || b[0].timestamp > t then 0 else 1 + FirstLater(b[1..], t)
  }

  // ---------------------------------------------------------------------------
  // add_snapshot

  /**
   * The insertion step of add_snapshot: append when the buffer is empty or the snapshot is
   * not older than the last one; otherwise insert before the first strictly later one.
   */
  function Inserted(b: seq<Snapshot>, s: Snapshot): seq<Snapshot>
  {
    if b == [] || s.timestamp >= b[|b| - 1].timestamp then b + [s]
    else
      var k := FirstLater(b, s.timestamp);
      b[..k] + [s] + b[k..]
  }

  /** The eviction step: drop from the front until at most `max` remain. */
  function Trimmed(b: seq<Snapshot>, max: nat): seq<Snapshot>
  {
    if |b| > max then b[|b| - max..] else b
  }

  /** add_snapshot on the buffer. */
  function AddSnapshotTo(b: seq<Snapshot>, s: Snapshot, max: nat): seq<Snapshot>
  {
    Trimmed(Inserted(b, s), max)
  }

  /** When no snapshot is later than `t`, the prefix at or before `t` is the whole buffer. */
  lemma {:induction false} NoneLater(b: seq<Snapshot>, t: real)
    requires forall i :: 0 <= i < |b| ==> b[i].timestamp <= t
    ensures FirstLater(b, t) == |b|
  {
    if b != [] {
      assert forall i :: 0 <= i < |b[1..]| ==> b[1..][i].timestamp <= t by {
        forall i | 0 <= i < |b[1..]| ensures b[1..][i].timestamp <= t { assert b[1..][i] == b[i + 1]; }
      }
      NoneLater(b[1..], t);
    }
  }

  /** Insertion adds exactly the new snapshot to the buffer's contents. */
  lemma InsertedContents(b: seq<Snapshot>, s: Snapshot)
    ensures multiset(Inserted(b, s)) == multiset(b) + multiset{s}
    ensures |Inserted(b, s)| == |b| + 1
  {
    if !(b == [] || s.timestamp >= b[|b| - 1].timestamp) {
      var k := FirstLater(b, s.timestamp);
      assert b == b[..k] + b[k..];
    }
  }

  /**
   * In a time-ordered buffer the new snapshot goes after every snapshot with an equal or
   * earlier timestamp and before every later one, the others keeping their order, and the
   * buffer stays time-ordered.
   */
  lemma InsertedInOrder(b: seq<Snapshot>, s: Snapshot)
    requires SortedByTime(b)
    ensures var k := FirstLater(b, s.timestamp);
            Inserted(b, s) == b[..k] + [s] + b[k..]
    ensures SortedByTime(Inserted(b, s))
  {
    var t := s.timestamp;
    if b == [] || t >= b[|b| - 1].timestamp {
      assert forall i :: 0 <= i < |b| ==> b[i].timestamp <= t by {
        forall i | 0 <= i < |b| ensures b[i].timestamp <= t { assert b[i].timestamp <= b[|b| - 1].timestamp; }
      }
      NoneLater(b, t);
      assert b[..|b|] == b && b[|b|..] == [];
    }
    SpliceSorted(b, FirstLater(b, t), s);
  }

  /** Splicing a snapshot in at a position that respects its timestamp keeps the order. */
  lemma SpliceSorted(b: seq<Snapshot>, k: nat, s: Snapshot)
    requires SortedByTime(b) && k <= |b|
    requires forall i :: 0 <= i < k ==> b[i].timestamp <= s.timestamp
    requires k < |b| ==> b[k].timestamp > s.timestamp
    ensures SortedByTime(b[..k] + [s] + b[k..])
  {
    var r := b[..k] + [s] + b[k..];
    assert forall i :: 0 <= i < k ==> r[i] == b[i];
    assert r[k] == s;
    assert forall i :: k < i < |r| ==> r[i] == b[i - 1];
    forall i, j | 0 <= i <= j < |r| ensures r[i].timestamp <= r[j].timestamp {
      if j < k || i > k {
      } else if i == k || j == k {
        if j > k { assert b[k].timestamp <= b[j - 1].timestamp; }
      } else {
        assert r[i].timestamp <= s.timestamp;
        assert b[k].timestamp <= b[j - 1].timestamp;
      }
    }
  }

  /**
   * Eviction leaves `min(|b|, max)` snapshots, the newest ones: what remains is a suffix
   * of the buffer, so only the oldest are dropped, and order is kept.
   */
  lemma TrimmedFacts(b: seq<Snapshot>, max: nat)
    ensures |Trimmed(b, max)| == if |b| > max then max else |b|
    ensures Trimmed(b, max) == b[|b| - |Trimmed(b, max)|..]
    ensures SortedByTime(b) ==> SortedByTime(Trimmed(b, max))
  {
    assert b[0..] == b;
    if |b| > max && SortedByTime(b) {
      var r := b[|b| - max..];
      forall i, j | 0 <= i <= j < |r| ensures r[i].timestamp <= r[j].timestamp {
        assert r[i] == b[|b| - max + i] && r[j] == b[|b| - max + j];
      }
    }
  }

  /**
   * add_snapshot as a whole: the buffer ends with at most `max` snapshots, the snapshots
   * kept are the newest of the old buffer with the new one inserted in time order, and a
   * time-ordered buffer stays time-ordered.
   */
  lemma AddSnapshotFacts(b: seq<Snapshot>, s: Snapshot, max: nat)
    ensures |AddSnapshotTo(b, s, max)| <= max
    ensures |AddSnapshotTo(b, s, max)| == if |b| + 1 > max then max else |b| + 1
    ensures var ins := Inserted(b, s);
            AddSnapshotTo(b, s, max) == ins[|ins| - |AddSnapshotTo(b, s, max)|..]
    ensures |b| < max ==> multiset(AddSnapshotTo(b, s, max)) == multiset(b) + multiset{s}
    ensures SortedByTime(b) ==> SortedByTime(AddSnapshotTo(b, s, max))
  {
    InsertedContents(b, s);
    if SortedByTime(b) { InsertedInOrder(b, s); }
    TrimmedFacts(Inserted(b, s), max);
  }

  // ---------------------------------------------------------------------------
  // get_interpolated_position

  /** Linear interpolation from `a` to `b` by the factor `t`. */
  function Lerp(a: real, b: real, t: real): real
  {
    a + (b - a) * t
  }

  /**
   * The position get_interpolated_position returns (and stores) for render time `rt`,
   * given the buffer and the stored current position.
   */
  function InterpolatedAt(b: seq<Snapshot>, current: Point, rt: real): Point
  {
    if b == [] then current
    else
      var k := FirstLater(b, rt);
      if k == 0 then PosOf(b[0])
      else if k == |b| then PosOf(b[k - 1])
      else
        var before, after := b[k - 1], b[k];
        var t := Clamp(0.0, 1.0, (rt - before.timestamp) / (after.timestamp - before.timestamp));
        Point(Lerp(before.x, after.x, t), Lerp(before.y, after.y, t))
  }

  /**
   * The edge cases: an empty buffer keeps the current position; a render time before every
   * snapshot shows the first one, and one at or after every snapshot shows the last one.
   */
  lemma InterpolationEdges(b: seq<Snapshot>, current: Point, rt: real)
    ensures b == [] ==> InterpolatedAt(b, current, rt) == current
    ensures b != [] && rt < b[0].timestamp ==> InterpolatedAt(b, current, rt) == PosOf(b[0])
    ensures b != [] && SortedByTime(b) && rt >= b[|b| - 1].timestamp ==>
              InterpolatedAt(b, current, rt) == PosOf(b[|b| - 1])
  {
    if b != [] && SortedByTime(b) && rt >= b[|b| - 1].timestamp {
      assert forall i :: 0 <= i < |b| ==> b[i].timestamp <= rt by {
        forall i | 0 <= i < |b| ensures b[i].timestamp <= rt { assert b[i].timestamp <= b[|b| - 1].timestamp; }
      }
      NoneLater(b, rt);
    }
  }

  /** `min(p, q) <= v <= max(p, q)` */
  predicate Between(v: real, p: real, q: real)
  {
    (p <= v <= q) || (q <= v <= p)
  }

  /**
   * Between two snapshots the result is the straight-line position at the render time: the
   * two snapshots bracket it strictly (so the zero time difference case cannot occur), the
   * clamp never takes effect, and each coordinate lies between those of the two snapshots;
   * at the earlier snapshot's own time the result is that snapshot.
   */
  lemma InterpolationInterior(b: seq<Snapshot>, current: Point, rt: real)
    requires 0 < FirstLater(b, rt) < |b|
    ensures var k := FirstLater(b, rt);
            var before, after := b[k - 1], b[k];
            var r := InterpolatedAt(b, current, rt);
            && before.timestamp <= rt < after.timestamp
            && var t := (rt - before.timestamp) / (after.timestamp - before.timestamp);
               && 0.0 <= t < 1.0
               && r == Point(Lerp(before.x, after.x, t), Lerp(before.y, after.y, t))
               && Between(r.x, before.x, after.x) && Between(r.y, before.y, after.y)
               && (rt == before.timestamp ==> r == PosOf(before))
  {
    var k := FirstLater(b, rt);
    var before, after := b[k - 1], b[k];
    var d := after.timestamp - before.timestamp;
    var n := rt - before.timestamp;
    var t := n / d;
    assert before.timestamp <= rt < after.timestamp;
    UnitFraction(n, d);
    LerpBetween(before.x, after.x, t);
    LerpBetween(before.y, after.y, t);
  }

  /** A fraction whose numerator is below its positive denominator lies in [0, 1). */
  lemma UnitFraction(n: real, d: real)
    requires 0.0 <= n < d
    ensures 0.0 <= n / d < 1.0
  {
    var t := n / d;
    assert t * d == n;
  }

  lemma LerpBetween(a: real, b: real, t: real)
    requires 0.0 <= t <= 1.0
    ensures Between(Lerp(a, b, t), a, b)
  {
    var d := b - a;
    assert Lerp(a, b, t) == a + d * t;
    if d >= 0.0 {
      assert 0.0 <= d * t <= d * 1.0;
    } else {
      assert d * 1.0 <= d * t <= 0.0;
    }
  }

  /** The insertion step of add_snapshot, scanning for the first strictly later snapshot. */
  method InsertSnapshot(b: seq<Snapshot>, s: Snapshot) returns (r: seq<Snapshot>)
    ensures r == Inserted(b, s)
  {
    if b == [] || s.timestamp >= b[|b| - 1].timestamp {
      return b + [s];
    }
    r := b;
    var i := 0;
    while i < |b| && s.timestamp >= b[i].timestamp
      invariant i <= FirstLater(b, s.timestamp)
    {
      i := i + 1;
    }
    if i < |b| {
      r := b[..i] + [s] + b[i..];
    }
  }

  /** The eviction step of add_snapshot: pop the front while more than `max` remain. */
  method EvictOldest(b: seq<Snapshot>, max: nat) returns (r: seq<Snapshot>)
    ensures r == Trimmed(b, max)
  {
    r := b;
    while |r| > max
      invariant |r| >= max || r == b
      invariant r == b[|b| - |r|..]
    {
      r := r[1..];
    }
  }

  /**
   * The scan and interpolation of get_interpolated_position on a non-empty buffer: the
   * last snapshot at or before `renderTime` and the first one after it.
   */
  method InterpolateBuffer(b: seq<Snapshot>, current: Point, renderTime: real) returns (p: Point)
    requires b != []
    ensures p == InterpolatedAt(b, current, renderTime)
  {
    var before, hasBefore := Snapshot(0.0, 0.0, 0.0), false;
    var i := 0;
    while i < |b| && b[i].timestamp <= renderTime
      invariant i <= FirstLater(b, renderTime)
      invariant hasBefore <==> i > 0
      invariant i > 0 ==> before == b[i - 1]
    {
      before, hasBefore := b[i], true;
      i := i + 1;
    }
    assert i == FirstLater(b, renderTime);
    var hasAfter := i < |b|;
    if !hasBefore && !hasAfter {
      // a non-empty buffer always yields one of the two
      assert false;
    } else if !hasBefore {
      p := PosOf(b[0]);
    } else if !hasAfter {
      p := PosOf(before);
      assert i == |b|;
    } else {
      var after := b[i];
      var timeDiff := after.timestamp - before.timestamp;
      if timeDiff <= 0.0 {
        // before.timestamp <= renderTime < after.timestamp
        assert false;
      } else {
        var t := (renderTime - before.timestamp) / timeDiff;
        t := Clamp(0.0, 1.0, t);
        p := Point(Lerp(before.x, after.x, t), Lerp(before.y, after.y, t));
      }
    }
  }

  // ---------------------------------------------------------------------------
  // InterpolatedEntity

  /** The state of an InterpolatedEntity. */
  datatype EntityView = EntityView(buffer: seq<Snapshot>, current: Point, score: int,
                                   color: Color, entityId: int)

  /** A remote entity (player) with its snapshot buffer. */
  class InterpolatedEntity {
    var positionBuffer: seq<Snapshot>
    const renderDelay: real
    const maxBufferSize: nat
    var currentX: real
    var currentY: real
    var score: int
    var color: Color
    var entityId: int

    function Model(): EntityView
      reads this
    {
      EntityView(positionBuffer, Point(currentX, currentY), score, color, entityId)
    }

    /** The buffer invariant add_snapshot maintains: bounded and time-ordered. */
    ghost predicate Valid()
      reads this
    {
      maxBufferSize == PositionBufferSize
      && |positionBuffer| <= maxBufferSize
      && SortedByTime(positionBuffer)
    }

    constructor (delay: real)
      ensures Model() == EntityView([], Point(0.0, 0.0), 0, Gray, 0)
      ensures renderDelay == delay && maxBufferSize == PositionBufferSize
      ensures Valid()
    {
      positionBuffer := [];
      renderDelay := delay;
      maxBufferSize := PositionBufferSize;
      currentX, currentY := 0.0, 0.0;
      score := 0;
      color := Gray;
      entityId := 0;
    }

    /** add_snapshot: insert in time order, then evict the oldest beyond the bound. */
    method AddSnapshot(timestamp: real, x: real, y: real)
      modifies this
      ensures positionBuffer == AddSnapshotTo(old(positionBuffer), Snapshot(timestamp, x, y), maxBufferSize)
      ensures Model() == old(Model()).(buffer := positionBuffer)
      ensures old(Valid()) ==> Valid()
    {
      var s := Snapshot(timestamp, x, y);
      var ins := InsertSnapshot(positionBuffer, s);
      var b := EvictOldest(ins, maxBufferSize);
      AddSnapshotFacts(positionBuffer, s, maxBufferSize);
      positionBuffer := b;
    }

    /**
     * get_interpolated_position: the position for the render time `currentTime -
     * render_delay`, which is also stored as the current position.
     */
    method GetInterpolatedPosition(currentTime: real) returns (rx: real, ry: real)
      modifies this
      ensures Point(rx, ry) == InterpolatedAt(old(positionBuffer), old(Model()).current, currentTime - renderDelay)
      ensures Model() == old(Model()).(current := Point(rx, ry))
    {
      if positionBuffer == [] {
        return currentX, currentY;
      }
      var p := InterpolateBuffer(positionBuffer, Point(currentX, currentY), currentTime - renderDelay);
      currentX, currentY := p.x, p.y;
      rx, ry := currentX, currentY;
    }

    /** set_immediate_position. */
    method SetImmediatePosition(x: real, y: real)
      modifies this
      ensures Model() == old(Model()).(current := Point(x, y))
    {
      currentX, currentY := x, y;
    }

    /** clear_buffer. */
    method ClearBuffer()
      modifies this
      ensures Model() == old(Model()).(buffer := [])
      ensures maxBufferSize == PositionBufferSize ==> Valid()
    {
      positionBuffer := [];
    }
  }

  // ---------------------------------------------------------------------------
  // LocalPlayerPredictor

  /** Reconciliation settings of the predictor. */
  const MaxAllowedDrift: real := 100.0
  const SnapThreshold: real := 150.0
  const ReconciliationFactor: real := 0.05

  /** `dist` is `(dx ** 2 + dy ** 2) ** 0.5` for the offset from `p` to `q`. */
  predicate IsDistance(p: Point, q: Point, dist: real)
  {
    dist >= 0.0 && dist * dist == SqDist(p, q)
  }

  /**
   * apply_server_correction on the predicted position `p`: snap to the server position
   * beyond the snap threshold; between the drift allowance and the threshold move toward
   * it by the reconciliation factor times the share of the offset beyond the allowance;
   * otherwise keep the prediction.
   */
  function Corrected(p: Point, server: Point, dist: real): Point
    requires IsDistance(p, server, dist)
  {
    if dist > SnapThreshold then server
    else if dist > MaxAllowedDrift then
      var strength := (dist - MaxAllowedDrift) / dist;
      Point(p.x + (server.x - p.x) * strength * ReconciliationFactor,
            p.y + (server.y - p.y) * strength * ReconciliationFactor)
    else p
  }

  /**
   * The three bands: beyond the threshold the prediction becomes the server position; within
   * the allowance it is untouched; in between it moves along the line toward the server so
   * that the distance becomes `dist - factor * (dist - allowance)`, which is smaller than
   * before but still beyond the allowance.
   */
  lemma CorrectionBands(p: Point, server: Point, dist: real)
    requires IsDistance(p, server, dist)
    ensures dist > SnapThreshold ==> Corrected(p, server, dist) == server
    ensures dist <= MaxAllowedDrift ==> Corrected(p, server, dist) == p
    ensures MaxAllowedDrift < dist <= SnapThreshold ==>
              var r := Corrected(p, server, dist);
              var lam := (dist - MaxAllowedDrift) / dist * ReconciliationFactor;
              var d' := dist - ReconciliationFactor * (dist - MaxAllowedDrift);
              && 0.0 < lam < 1.0
              && r == Point(p.x + (server.x - p.x) * lam, p.y + (server.y - p.y) * lam)
              && MaxAllowedDrift < d' < dist
              && SqDist(r, server) == d' * d'
  {
    if MaxAllowedDrift < dist <= SnapThreshold {
      var strength := (dist - MaxAllowedDrift) / dist;
      StrengthBounds(dist, MaxAllowedDrift);
      var lam := strength * ReconciliationFactor;
      var ox, oy := server.x - p.x, server.y - p.y;
      assert ox * strength * ReconciliationFactor == ox * lam;
      assert oy * strength * ReconciliationFactor == oy * lam;
      var d' := dist - ReconciliationFactor * (dist - MaxAllowedDrift);
      assert d' == dist * (1.0 - lam) by {
        assert dist * lam == (strength * dist) * ReconciliationFactor;
      }
      MovedAlongLine(p, server, dist, lam);
    }
  }

  /** The share of the offset beyond the allowance lies strictly between 0 and 1. */
  lemma StrengthBounds(dist: real, drift: real)
    requires 0.0 < drift < dist
    ensures var s := (dist - drift) / dist; 0.0 < s < 1.0 && s * dist == dist - drift
  {
    var s := (dist - drift) / dist;
    var q := drift / dist;
    assert q * dist == drift;
    assert s * dist == dist - drift;
    assert (s + q) * dist == s * dist + q * dist;
    assert (s + q - 1.0) * dist == 0.0;
    assert s + q == 1.0 && 0.0 < q;
  }

  /** Moving the fraction `lam` of the way toward `server` scales the distance by `1 - lam`. */
  lemma MovedAlongLine(p: Point, server: Point, dist: real, lam: real)
    requires IsDistance(p, server, dist)
    ensures var r := Point(p.x + (server.x - p.x) * lam, p.y + (server.y - p.y) * lam);
            SqDist(r, server) == (dist * (1.0 - lam)) * (dist * (1.0 - lam))
  {
    var ox, oy := server.x - p.x, server.y - p.y;
    var r := Point(p.x + ox * lam, p.y + oy * lam);
    var c := 1.0 - lam;
    assert r.x - server.x == -(ox * c);
    assert r.y - server.y == -(oy * c);
    assert SqDist(r, server) == (ox * c) * (ox * c) + (oy * c) * (oy * c);
    assert (ox * c) * (ox * c) + (oy * c) * (oy * c) == (ox * ox + oy * oy) * (c * c);
    assert ox * ox + oy * oy == dist * dist;
    assert (dist * dist) * (c * c) == (dist * c) * (dist * c);
  }

  /** Client-side prediction of the local player's position. */
  class LocalPlayerPredictor {
    const playerSpeed: real
    var x: real
    var y: real
    var serverX: real
    var serverY: real
    var dx: int
    var dy: int
    const maxAllowedDrift: real
    const snapThreshold: real
    const reconciliationFactor: real

    constructor (speed: real)
      ensures playerSpeed == speed
      ensures x == 0.0 && y == 0.0 && serverX == 0.0 && serverY == 0.0 && dx == 0 && dy == 0
      ensures maxAllowedDrift == MaxAllowedDrift && snapThreshold == SnapThreshold
      ensures reconciliationFactor == ReconciliationFactor
    {
      playerSpeed := speed;
      x, y, serverX, serverY := 0.0, 0.0, 0.0, 0.0;
      dx, dy := 0, 0;
      maxAllowedDrift := MaxAllowedDrift;
      snapThreshold := SnapThreshold;
      reconciliationFactor := ReconciliationFactor;
    }

    /** set_input. */
    method SetInput(newDx: int, newDy: int)
      modifies this
      ensures dx == newDx && dy == newDy
      ensures x == old(x) && y == old(y) && serverX == old(serverX) && serverY == old(serverY)
    {
      dx, dy := newDx, newDy;
    }

    /**
     * update: the server's movement step on the predicted position (unchanged on zero
     * input); `mag` is the input's magnitude.
     */
    method Update(deltaTime: real, gameWidth: real, gameHeight: real, playerRadius: real, mag: real)
      returns (rx: real, ry: real)
      requires IsMagnitude(dx, dy, mag)
      modifies this
      ensures dx == old(dx) && dy == old(dy) && serverX == old(serverX) && serverY == old(serverY)
      ensures Point(x, y) == Step(Point(old(x), old(y)), dx, dy, mag, playerSpeed, deltaTime,
                                  gameWidth, gameHeight, playerRadius)
      ensures rx == x && ry == y
    {
      if dx != 0 || dy != 0 {
        assert mag != 0.0 by { assert mag * mag > 0.0; }
        var newX := x + Displacement(dx, mag, playerSpeed, deltaTime);
        var newY := y + Displacement(dy, mag, playerSpeed, deltaTime);
        x := Clamp(playerRadius, gameWidth - playerRadius, newX);
        y := Clamp(playerRadius, gameHeight - playerRadius, newY);
      }
      rx, ry := x, y;
    }

    /**
     * apply_server_correction: record the server position and reconcile the prediction
     * with it; `dist` is the distance between the two.
     */
    method ApplyServerCorrection(sx: real, sy: real, dist: real)
      requires IsDistance(Point(x, y), Point(sx, sy), dist)
      requires maxAllowedDrift == MaxAllowedDrift && snapThreshold == SnapThreshold
      requires reconciliationFactor == ReconciliationFactor
      modifies this
      ensures serverX == sx && serverY == sy
      ensures Point(x, y) == Corrected(Point(old(x), old(y)), Point(sx, sy), dist)
      ensures dx == old(dx) && dy == old(dy)
    {
      serverX, serverY := sx, sy;
      var ox := sx - x;
      var oy := sy - y;
      if dist > snapThreshold {
        x, y := sx, sy;
      } else if dist > maxAllowedDrift {
        var correctionStrength := (dist - maxAllowedDrift) / dist;
        x := x + ox * correctionStrength * reconciliationFactor;
        y := y + oy * correctionStrength * reconciliationFactor;
      }
    }

    /** set_position: prediction and server position both become the given point. */
    method SetPosition(px: real, py: real)
      modifies this
      ensures x == px && y == py && serverX == px && serverY == py
      ensures dx == old(dx) && dy == old(dy)
    {
      x, y := px, py;
      serverX, serverY := px, py;
    }
  }

  // ---------------------------------------------------------------------------
  // EntityManager

  /** The entry get_interpolated_positions reports for one entity. */
  datatype RenderInfo = RenderInfo(x: real, y: real, score: int, color: Color)

  /** A new entity as get_or_create_entity makes it. */
  function FreshEntity(id: int): (v: EntityView)
    ensures v.buffer == [] && v.entityId == id
  {
    EntityView([], Point(0.0, 0.0), 0, Gray, id)
  }

  /** get_or_create_entity on the manager's entities. */
  function GetOrCreate(m: map<int, EntityView>, id: int): map<int, EntityView>
  {
    if id in m then m else m[id := FreshEntity(id)]
  }

  /** update_entity on the manager's entities. */
  function UpdateEntityIn(m: map<int, EntityView>, id: int, t: real, x: real, y: real,
                          score: int, color: Color): map<int, EntityView>
  {
    var m1 := GetOrCreate(m, id);
    m1[id := m1[id].(buffer := AddSnapshotTo(m1[id].buffer, Snapshot(t, x, y), PositionBufferSize),
                     score := score, color := color)]
  }

  /** One entity after get_interpolated_position at `now`. */
  function Rendered(v: EntityView, now: real): EntityView
  {
    v.(current := InterpolatedAt(v.buffer, v.current, now - InterpolationDelay))
  }

  /** Every entity after get_interpolated_positions at `now`. */
  function RenderedAll(m: map<int, EntityView>, now: real): (r: map<int, EntityView>)
    ensures r.Keys == m.Keys
  {
    map k | k in m :: Rendered(m[k], now)
  }

  /** The entities after those with ids in `done` have been rendered at `now`. */
  function RenderedSome(m: map<int, EntityView>, done: set<int>, now: real): map<int, EntityView>
  {
    map k | k in m :: if k in done then Rendered(m[k], now) else m[k]
  }

  /** The report entries of the entities with ids in `done`. */
  function InfoSome(m: map<int, EntityView>, done: set<int>, now: real): map<int, RenderInfo>
  {
    map k | k in m && k in done :: InfoOf(Rendered(m[k], now))
  }

  lemma RenderOneMore(m: map<int, EntityView>, done: set<int>, k: int, now: real)
    requires k in m && k !in done
    ensures RenderedSome(m, done, now)[k := Rendered(m[k], now)] == RenderedSome(m, done + {k}, now)
    ensures InfoSome(m, done, now)[k := InfoOf(Rendered(m[k], now))] == InfoSome(m, done + {k}, now)
  {
  }

  lemma RenderedSomeAll(m: map<int, EntityView>, now: real)
    ensures RenderedSome(m, m.Keys, now) == RenderedAll(m, now)
    ensures InfoSome(m, m.Keys, now) == map k | k in m :: InfoOf(Rendered(m[k], now))
  {
  }

  function InfoOf(v: EntityView): RenderInfo
  {
    RenderInfo(v.current.x, v.current.y, v.score, v.color)
  }

  /** Every entity is registered under its own id. */
  predicate Tagged(m: map<int, EntityView>)
  {
    forall k :: k in m ==> m[k].entityId == k
  }

  /**
   * get_or_create_entity keeps one entity per id, tagged with its id: an existing entity
   * is returned untouched, and a missing one is added with an empty buffer.
   */
  lemma GetOrCreateFacts(m: map<int, EntityView>, id: int)
    ensures GetOrCreate(m, id).Keys == m.Keys + {id}
    ensures id in m ==> GetOrCreate(m, id) == m
    ensures id !in m ==> GetOrCreate(m, id)[id].buffer == []
    ensures Tagged(m) ==> Tagged(GetOrCreate(m, id))
    ensures forall k :: k in m ==> GetOrCreate(m, id)[k] == m[k]
  {
  }

  /**
   * update_entity gives the entity with that id (created first when missing) one more
   * snapshot and the new score and color, keeping its id, and leaves every other entity
   * as it was.
   */
  lemma UpdateEntityFacts(m: map<int, EntityView>, id: int, t: real, x: real, y: real,
                          score: int, color: Color)
    ensures var r := UpdateEntityIn(m, id, t, x, y, score, color);
            var base := if id in m then m[id] else FreshEntity(id);
      && r.Keys == m.Keys + {id}
      && r[id] == base.(buffer := AddSnapshotTo(base.buffer, Snapshot(t, x, y), PositionBufferSize),
                        score := score, color := color)
      && (forall k :: k in m && k != id ==> r[k] == m[k])
  {
    var base := if id in m then m[id] else FreshEntity(id);
    assert GetOrCreate(m, id)[id] == base;
  }

  /**
   * After update_entity every entity is still registered under its own id, and the
   * updated entity's buffer is bounded, and time-ordered if it was.
   */
  lemma UpdateEntityKeepsBuffers(m: map<int, EntityView>, id: int, t: real, x: real, y: real,
                                 score: int, color: Color)
    ensures var r := UpdateEntityIn(m, id, t, x, y, score, color);
            var before := if id in m then m[id].buffer else [];
      && |r[id].buffer| <= PositionBufferSize
      && (SortedByTime(before) ==> SortedByTime(r[id].buffer))
      && (Tagged(m) ==> Tagged(r))
  {
    UpdateEntityFacts(m, id, t, x, y, score, color);
    var base := if id in m then m[id] else FreshEntity(id);
    AddSnapshotFacts(base.buffer, Snapshot(t, x, y), PositionBufferSize);
  }

  /** The entity manager: one interpolated entity per id. */
  class EntityManager {
    var entities: map<int, InterpolatedEntity>
    /** The entity objects the manager owns. */
    ghost var Repr: set<InterpolatedEntity>

    /**
     * Distinct ids hold distinct entities owned by the manager, each tagged with its id,
     * built with the default render delay and buffer bound, and keeping its buffer
     * bounded and time-ordered.
     */
    ghost predicate Valid()
      reads this, Repr
    {
      && (forall k :: k in entities ==> entities[k] in Repr)
      && (forall k :: k in entities ==> entities[k].entityId == k)
      && (forall k :: k in entities ==>
            entities[k].renderDelay == InterpolationDelay && entities[k].maxBufferSize == PositionBufferSize)
      && (forall k :: k in entities ==> entities[k].Valid())
      && (forall k, k' :: k in entities && k' in entities && k != k' ==> entities[k] != entities[k'])
    }

    /** The entities' states, by id. */
    ghost function Views(): map<int, EntityView>
      requires Valid()
      reads this, Repr
    {
      map k | k in entities :: entities[k].Model()
    }

    constructor ()
      ensures Valid() && entities == map[] && Repr == {}
    {
      entities := map[];
      Repr := {};
    }

    /** get_or_create_entity. */
    method GetOrCreateEntity(id: int) returns (e: InterpolatedEntity)
      requires Valid()
      modifies this
      ensures Valid() && fresh(Repr - old(Repr))
      ensures entities.Keys == old(entities.Keys) + {id} && entities[id] == e
      ensures id in old(entities) ==> entities == old(entities) && Repr == old(Repr)
      ensures id !in old(entities) ==> fresh(e) && entities == old(entities)[id := e] && Repr == old(Repr) + {e}
      ensures Views() == GetOrCreate(old(Views()), id)
    {
      if id !in entities {
        var entity := new InterpolatedEntity(InterpolationDelay);
        entity.entityId := id;
        entities := entities[id := entity];
        Repr := Repr + {entity};
      }
      e := entities[id];
    }

    /** update_entity. */
    method UpdateEntity(id: int, t: real, x: real, y: real, score: int, color: Color)
      requires Valid()
      modifies this, Repr
      ensures Valid() && fresh(Repr - old(Repr))
      ensures Views() == UpdateEntityIn(old(Views()), id, t, x, y, score, color)
    {
      ghost var m := Views();
      var e := GetOrCreateEntity(id);
      ghost var m1 := Views();
      ghost var es, rs := entities, Repr;
      ghost var base := e.Model();
      assert e.Valid();
      e.AddSnapshot(t, x, y);
      e.score := score;
      e.color := color;
      assert entities == es && Repr == rs;
      assert e.Model() == base.(buffer := AddSnapshotTo(base.buffer, Snapshot(t, x, y), PositionBufferSize),
                                score := score, color := color);
      forall k | k in entities && k != id
        ensures entities[k].Model() == m1[k] && entities[k].entityId == k && entities[k].Valid()
      {
        assert entities[k] != e;
      }
      assert Valid();
      ghost var target := m1[id := e.Model()];
      assert Views().Keys == target.Keys;
      forall k | k in target ensures Views()[k] == target[k] { }
      assert Views() == target;
    }

    /** remove_entity: nothing happens for an unknown id. */
    method RemoveEntity(id: int)
      requires Valid()
      modifies this
      ensures Valid() && Repr == old(Repr)
      ensures entities == old(entities) - {id}
      ensures Views() == old(Views()) - {id}
    {
      if id in entities {
        entities := entities - {id};
      }
    }

    /**
     * get_interpolated_positions: one entry per entity, each entity having stored its
     * interpolated position for `now`.
     */
    method GetInterpolatedPositions(now: real) returns (positions: map<int, RenderInfo>)
      requires Valid()
      modifies Repr
      ensures Valid() && entities == old(entities) && Repr == old(Repr)
      ensures positions.Keys == entities.Keys
      ensures Views() == RenderedAll(old(Views()), now)
      ensures forall k :: k in positions ==> positions[k] == InfoOf(Views()[k])
    {
      ghost var m := Views();
      positions := map[];
      var todo := entities.Keys;
      ghost var done: set<int> := {};
      while todo != {}
        invariant Valid() && entities == old(entities) && Repr == old(Repr)
        invariant todo + done == m.Keys && todo !! done
        invariant Views() == RenderedSome(m, done, now)
        invariant positions == InfoSome(m, done, now)
        decreases todo
      {
        NonEmptyHasMember(todo);
        var k :| k in todo;
        var info := RenderOne(k, now);
        RenderOneMore(m, done, k, now);
        positions := positions[k := info];
        todo, done := todo - {k}, done + {k};
      }
      assert done == m.Keys;
      RenderedSomeAll(m, now);
    }

    /** get_interpolated_position on the entity with id `k`, and its report entry. */
    method RenderOne(k: int, now: real) returns (info: RenderInfo)
      requires Valid() && k in entities
      modifies entities[k]
      ensures Valid()
      ensures Views() == old(Views())[k := Rendered(old(Views())[k], now)]
      ensures info == InfoOf(Views()[k])
    {
      ghost var m := Views();
      var e := entities[k];
      var px, py := e.GetInterpolatedPosition(now);
      info := RenderInfo(px, py, e.score, e.color);
      forall k' | k' in entities && k' != k
        ensures entities[k'].Model() == m[k'] && entities[k'].entityId == k' && entities[k'].Valid()
      {
        assert entities[k'] != e;
      }
      assert Valid();
      ghost var target := m[k := e.Model()];
      assert Views().Keys == target.Keys;
      forall k' | k' in target ensures Views()[k'] == target[k'] { }
      assert Views() == target;
    }
  }
}
