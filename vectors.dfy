/** Planar (x/z) geometry used by the boss: the distance and direction to the
    player with heights ignored, and the horizontal facing vector.  Float
    vectors are modelled as exact real triples. */
module Vectors {

  datatype Vec3 = Vec3(x: real, y: real, z: real)

  function Add(a: Vec3, b: Vec3): Vec3
  {
    Vec3(a.x + b.x, a.y + b.y, a.z + b.z)
  }

  function Sub(a: Vec3, b: Vec3): Vec3
  {
    Vec3(a.x - b.x, a.y - b.y, a.z - b.z)
  }

  function Scale(a: Vec3, k: real): Vec3
  {
    Vec3(a.x * k, a.y * k, a.z * k)
  }

  /** The vector with its height dropped, as the boss builds `playerXZ` and `selfXZ`. */
  function Flatten(v: Vec3): (r: Vec3)
    ensures r.y == 0.0 && r.x == v.x && r.z == v.z
  {
    Vec3(v.x, 0.0, v.z)
  }

  /** The un-normalised direction from `from` to `to` in the ground plane
      (the vector GetDistanceDirection normalises). */
  function PlanarOffset(from: Vec3, to: Vec3): (r: Vec3)
    ensures r.y == 0.0
    ensures r.x == to.x - from.x && r.z == to.z - from.z
  {
    Sub(Flatten(to), Flatten(from))
  }

  /** The square of the planar distance GetDistanceDirection computes. */
  function PlanarDistanceSq(from: Vec3, to: Vec3): (d: real)
    ensures d >= 0.0
  {
    var o := PlanarOffset(from, to);
    SquarePositive(o.x);
    SquarePositive(o.z);
    o.x * o.x + o.z * o.z
  }

  lemma SquarePositive(a: real)
    ensures a * a >= 0.0
    ensures a != 0.0 ==> a * a > 0.0
  {
    if a < 0.0 {
      assert a * a == (-a) * (-a);
    }
  }

  lemma MulMono(a: real, b: real, c: real)
    requires a <= b && c >= 0.0
    ensures a * c <= b * c
  {
  }

  lemma MulStrict(a: real, b: real, c: real)
    requires a < b && c > 0.0
    ensures a * c < b * c
  {
  }

  /** Heights never matter to the planar distance. */
  lemma PlanarIgnoresHeight(from: Vec3, to: Vec3, fromY: real, toY: real)
    ensures PlanarDistanceSq(from.(y := fromY), to.(y := toY)) == PlanarDistanceSq(from, to)
    ensures PlanarOffset(from.(y := fromY), to.(y := toY)) == PlanarOffset(from, to)
  {
  }

  /** `playerDistance > closeRangeThreshold`, decided without a square root. */
  function IsFar(from: Vec3, to: Vec3, threshold: real): bool
  {
    threshold < 0.0 || PlanarDistanceSq(from, to) > threshold * threshold
  }

  /** IsFar agrees with comparing the true (non-negative) planar distance
      against the threshold. */
  lemma FarIffBeyondThreshold(from: Vec3, to: Vec3, threshold: real, distance: real)
    requires distance >= 0.0 && distance * distance == PlanarDistanceSq(from, to)
    ensures IsFar(from, to, threshold) <==> distance > threshold
  {
    if threshold >= 0.0 {
      SquaresOrdered(threshold, distance);
    }
  }

  /** On non-negative reals, squaring preserves strict order. */
  lemma SquaresOrdered(t: real, d: real)
    requires t >= 0.0 && d >= 0.0
    ensures d > t <==> d * d > t * t
  {
    if d > t {
      calc {
        t * t;
      <= { MulMono(t, d, t); }
        d * t;
      == t * d;
      <  { MulStrict(t, d, d); }
        d * d;
      }
    } else {
      calc {
        d * d;
      <= { MulMono(d, t, d); }
        t * d;
      == d * t;
      <= { MulMono(d, t, t); }
        t * t;
      }
    }
  }

  /** The vector the boss assigns to its forward axis to look at `target`
      while keeping its own height. */
  function FaceHorizontally(self: Vec3, target: Vec3): (r: Vec3)
    ensures r.y == 0.0
    ensures r == PlanarOffset(self, target)
  {
    Sub(Vec3(target.x, self.y, target.z), self)
  }

  /** The point a teleport lands on: in front of the player by `distance`. */
  function TeleportPoint(player: Vec3, playerForward: Vec3, distance: real): Vec3
  {
    Add(player, Scale(playerForward, distance))
  }

  /** When the player's forward axis is a horizontal unit vector, a teleport
      lands exactly `distance` away from the player in the ground plane. */
  lemma TeleportLandsAtDistance(player: Vec3, playerForward: Vec3, distance: real)
    requires playerForward.y == 0.0
    requires playerForward.x * playerForward.x + playerForward.z * playerForward.z == 1.0
    ensures PlanarDistanceSq(TeleportPoint(player, playerForward, distance), player) == distance * distance
  {
    var p := TeleportPoint(player, playerForward, distance);
    var fx, fz := playerForward.x, playerForward.z;
    assert player.x - p.x == -(fx * distance);
    assert player.z - p.z == -(fz * distance);
    calc {
      PlanarDistanceSq(p, player);
      (fx * distance) * (fx * distance) + (fz * distance) * (fz * distance);
      (fx * fx + fz * fz) * (distance * distance);
      distance * distance;
    }
  }
}
