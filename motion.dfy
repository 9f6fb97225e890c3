/**
 * The arithmetic of a sheep's movement (Assets/Sheep.cs): the seek target chosen by
 * the Graze loop, the arrival test it waits on, and the speed-matching force that
 * FixedUpdate applies. Square roots stay outside: a distance is passed in together
 * with the fact that its square is the squared distance.
 */
module Motion {
  import opened Geometry

  /** The Graze loop waits until the body is within this distance of its target. */
  const ArrivalRadius: real := 0.01

  /** `Vector3.normalized` returns the zero vector for magnitudes up to this bound. */
  const NormalizeEpsilon: real := 0.00001

  /**
   * `Random.insideUnitSphere * search.GetRandomNumber()` stored in a Vector2: the x and
   * y components of a point of the unit ball, scaled by the sampled search radius.
   */
  function SeekOffset(ball: Vec3, radius: real): (o: Vec2)
    ensures Norm2Sq(o) == radius * radius * Norm2Sq(Vec2(ball.x, ball.y))
    ensures Norm3Sq(ball) <= 1.0 ==> Norm2Sq(o) <= radius * radius
  {
    var flat := Vec2(ball.x, ball.y);
    var o := Scale2(radius, flat);
    Scale2NormSq(radius, flat);
    var rr, f := radius * radius, Norm2Sq(flat);
    assert f <= Norm3Sq(ball) by {
      assert ball.z * ball.z >= 0.0;
    }
    if Norm3Sq(ball) <= 1.0 then
      ScaleAtMostOne(rr, f);
      o
    else o
  }

  lemma ScaleAtMostOne(k: real, x: real)
    requires 0.0 <= k && x <= 1.0
    ensures k * x <= k
  {
    assert k * (1.0 - x) >= 0.0;
  }

  /** The target lies at the offset in the ground plane, at the body's own height. */
  function SeekTarget(position: Vec3, offset: Vec2): (t: Vec3)
    ensures t.y == position.y
    ensures Dist3Sq(t, position) == Norm2Sq(offset)
  {
    Add3(position, Vec3(offset.x, 0.0, offset.y))
  }

  /** A seek target is never farther from the body than the magnitude of the sampled radius. */
  lemma SeekWithinRadius(position: Vec3, ball: Vec3, radius: real)
    requires Norm3Sq(ball) <= 1.0
    ensures Dist3Sq(SeekTarget(position, SeekOffset(ball, radius)), position) <= radius * radius
  {
  }

  /** The Graze loop's wait ends: `!(move && Vector3.Distance(position, target) > 0.01)`. */
  predicate SeekOver(move: bool, position: Vec3, target: Vec3): (over: bool)
    ensures !move ==> over
    ensures position == target ==> over
  {
    !move || Dist3Sq(position, target) <= ArrivalRadius * ArrivalRadius
  }

  /**
   * The squared test is the game's: with `d` the distance to the target, the wait
   * ends exactly when the sheep has stopped or `d` is at most 0.01.
   */
  lemma SeekOverByDistance(move: bool, position: Vec3, target: Vec3, d: real)
    requires 0.0 <= d && d * d == Dist3Sq(position, target)
    ensures SeekOver(move, position, target) <==> !move || d <= ArrivalRadius
  {
    var e := ArrivalRadius;
    if d > e {
      SquareBelow(e, d);
    } else {
      SquareBelow(d, e);
    }
  }

  /** Squaring is monotone on the non-negative reals, strictly so for distinct values. */
  lemma SquareBelow(p: real, q: real)
    requires 0.0 <= p <= q
    ensures p * p <= q * q
    ensures p < q ==> p * p < q * q
  {
    var pp, pq, qq := p * p, p * q, q * q;
    assert pp <= pq;
    if p < q {
      assert pq < qq;
    }
  }

  /** `Mathf.Min(d, speed)`: the commanded speed is capped by both the remaining distance and `speed`. */
  function CappedSpeed(d: real, speed: real): (v: real)
    ensures v <= d && v <= speed
    ensures v == d || v == speed
  {
    if d < speed then d else speed
  }

  /** `Vector3.normalized`, given the vector's magnitude. */
  function Normalized(v: Vec3, magnitude: real): (n: Vec3)
    ensures magnitude <= NormalizeEpsilon ==> n == Zero3
  {
    if magnitude > NormalizeEpsilon then Scale3(1.0 / magnitude, v) else Zero3
  }

  /** Above the bound, and given the true magnitude, the result has length 1. */
  lemma NormalizedUnitLength(v: Vec3, magnitude: real)
    requires magnitude > NormalizeEpsilon && magnitude * magnitude == Norm3Sq(v)
    ensures Norm3Sq(Normalized(v, magnitude)) == 1.0
  {
    var inv := 1.0 / magnitude;
    assert inv * magnitude == 1.0;
    Scale3NormSq(inv, v);
    SquareCancel(1.0, magnitude, inv);
  }

  function Dot3(a: Vec3, b: Vec3): real {
    a.x * b.x + a.y * b.y + a.z * b.z
  }

  /**
   * The force FixedUpdate applies: `(target - position).normalized * mass * a` with
   * `a = min(d, speed) - u`, where `d` is the distance to the target and `u` the
   * body's current speed.
   */
  function DriveForce(position: Vec3, target: Vec3, d: real, u: real, speed: real, mass: real): (f: Vec3)
    ensures u == CappedSpeed(d, speed) ==> f == Zero3
    ensures d <= NormalizeEpsilon ==> f == Zero3
  {
    Scale3(SpeedError(d, u, speed), Scale3(mass, Normalized(Sub3(target, position), d)))
  }

  /** `a = v - u`: how far the body's speed `u` is below the capped speed. */
  function SpeedError(d: real, u: real, speed: real): real {
    CappedSpeed(d, speed) - u
  }

  /**
   * When the target is farther than the normalisation bound, the force lies along the
   * line to the target, with length mass * |a|: its component toward the target is
   * mass * a, so it pushes toward the target when the body is slower than the capped
   * speed and brakes when it is faster.
   */
  lemma DriveForceAlongLine(position: Vec3, target: Vec3, d: real, u: real, speed: real, mass: real)
    requires d > NormalizeEpsilon && d * d == Dist3Sq(position, target)
    ensures var a := SpeedError(d, u, speed);
            var f := DriveForce(position, target, d, u, speed, mass);
            Norm3Sq(f) == (mass * a) * (mass * a) &&
            Dot3(f, Sub3(target, position)) == mass * a * d
  {
    var a := SpeedError(d, u, speed);
    var diff := Sub3(target, position);
    assert Norm3Sq(diff) == d * d by {
      assert Norm3Sq(diff) == Dist3Sq(position, target);
    }
    var f := DriveForce(position, target, d, u, speed, mass);
    assert Normalized(diff, d) == Scale3(1.0 / d, diff);
    ScaledUnitForce(diff, d, a, mass, f);
  }

  /** The geometric core of DriveForceAlongLine, on a vector of known length `d`. */
  lemma ScaledUnitForce(diff: Vec3, d: real, a: real, mass: real, f: Vec3)
    requires d > 0.0 && Norm3Sq(diff) == d * d
    requires f == Scale3(a, Scale3(mass, Scale3(1.0 / d, diff)))
    ensures Norm3Sq(f) == (mass * a) * (mass * a) && Dot3(f, diff) == mass * a * d
  {
    var inv := 1.0 / d;
    assert inv * d == 1.0;
    var x := mass * a;
    var k := a * (mass * inv);
    ScaleScale3(mass, inv, diff);
    ScaleScale3(a, mass * inv, diff);
    assert f == Scale3(k, diff);
    assert k == x * inv;
    Scale3NormSq(k, diff);
    SquareCancel(x, d, inv);
    calc {
      Norm3Sq(f);
      k * k * Norm3Sq(diff);
      k * k * (d * d);
      (x * inv) * (x * inv) * (d * d);
      x * x;
    }
    DotScale3(k, diff);
    LinearCancel(x, d, inv);
    calc {
      Dot3(f, diff);
      k * Norm3Sq(diff);
      k * (d * d);
      (x * inv) * (d * d);
      x * d;
    }
  }

  lemma SquareCancel(x: real, d: real, inv: real)
    requires inv * d == 1.0
    ensures (x * inv) * (x * inv) * (d * d) == x * x
  {
    var p := inv * d;
    assert p * p == 1.0;
    calc {
      (x * inv) * (x * inv) * (d * d);
      (x * x) * (p * p);
      (x * x) * 1.0;
    }
  }

  lemma LinearCancel(x: real, d: real, inv: real)
    requires inv * d == 1.0
    ensures (x * inv) * (d * d) == x * d
  {
    assert (x * inv) * (d * d) == (x * d) * (inv * d);
  }

  lemma DotScale3(k: real, v: Vec3)
    ensures Dot3(Scale3(k, v), v) == k * Norm3Sq(v)
  {
    assert (k * v.x) * v.x == k * (v.x * v.x);
    assert (k * v.y) * v.y == k * (v.y * v.y);
    assert (k * v.z) * v.z == k * (v.z * v.z);
  }

  lemma ScaleScale3(p: real, q: real, v: Vec3)
    ensures Scale3(p, Scale3(q, v)) == Scale3(p * q, v)
  {
    assert p * (q * v.x) == (p * q) * v.x;
    assert p * (q * v.y) == (p * q) * v.y;
    assert p * (q * v.z) == (p * q) * v.z;
  }
}
