/**
 * Spawn placement by rejection sampling (Level.Start, Assets/Level.cs).
 *
 * Each sheep keeps drawing a point of the unit disc, scaled by the level's range,
 * until the point is at least one unit away from every point accepted so far;
 * the accepted point is appended to the list. The random source is an oracle: a
 * finite sequence of unit-disc points, consumed in order. `Fill` is the
 * specification of that loop; `Pasture.Level.Start` is proved equal to it.
 */
module Placement {
  import opened Geometry

  /** Smallest allowed distance between two sheep. */
  const MinSeparation: real := 1.0

  /** The collision test `Vector2.Distance(c, p) < 1.0f`, stated on squares. */
  predicate TooClose(c: Vec2, p: Vec2) {
    Dist2Sq(c, p) < MinSeparation * MinSeparation
  }

  /** A candidate survives the `foreach` over the accepted points. */
  predicate Clear(c: Vec2, placed: seq<Vec2>) {
    forall j :: 0 <= j < |placed| ==> !TooClose(c, placed[j])
  }

  /** Every point is at least MinSeparation from every point accepted before it. */
  predicate Separated(ps: seq<Vec2>) {
    forall i, j :: 0 <= i < j < |ps| ==> !TooClose(ps[j], ps[i])
  }

  /** `p` lies in the closed disc of radius |range| around the origin. */
  predicate InDisc(p: Vec2, range: real) {
    Norm2Sq(p) <= range * range
  }

  predicate AllInDisc(ps: seq<Vec2>, range: real) {
    forall i :: 0 <= i < |ps| ==> InDisc(ps[i], range)
  }

  /** What `Random.insideUnitCircle` promises of each draw. */
  predicate UnitDraws(draws: seq<Vec2>) {
    forall k :: 0 <= k < |draws| ==> Norm2Sq(draws[k]) <= 1.0
  }

  /**
   * The placement loop: keep the points in `placed`, and while fewer than `n`
   * points are accepted, take the next draw, scale it by `range`, and append it
   * if it is clear of everything accepted. Stops early when the draws run out.
   * Accepting only ever appends, and never past `n` points.
   */
  function Fill(n: int, range: real, placed: seq<Vec2>, draws: seq<Vec2>): (r: seq<Vec2>)
    ensures |placed| <= |r| && r[..|placed|] == placed
    ensures |placed| <= n ==> |r| <= n
    decreases |draws|
  {
    if |placed| >= n || |draws| == 0 then placed
    else
      var c := Scale2(range, draws[0]);
      if Clear(c, placed) then Fill(n, range, placed + [c], draws[1..])
      else Fill(n, range, placed, draws[1..])
  }

  /** Appending a candidate that is clear of every accepted point keeps the list separated. */
  lemma AppendClear(placed: seq<Vec2>, c: Vec2)
    requires Separated(placed) && Clear(c, placed)
    ensures Separated(placed + [c])
  {
    var ps := placed + [c];
    forall i, j | 0 <= i < j < |ps| ensures !TooClose(ps[j], ps[i]) {
      if j < |placed| {
        assert ps[j] == placed[j] && ps[i] == placed[i];
      } else {
        assert ps[j] == c && ps[i] == placed[i];
      }
    }
  }

  /** Every pair of accepted points is at least MinSeparation apart. */
  lemma {:induction false} FillSeparated(n: int, range: real, placed: seq<Vec2>, draws: seq<Vec2>)
    requires Separated(placed)
    ensures Separated(Fill(n, range, placed, draws))
    decreases |draws|
  {
    if |placed| >= n || |draws| == 0 {
    } else {
      var c := Scale2(range, draws[0]);
      if Clear(c, placed) {
        AppendClear(placed, c);
        FillSeparated(n, range, placed + [c], draws[1..]);
      } else {
        FillSeparated(n, range, placed, draws[1..]);
      }
    }
  }

  /** A unit-disc draw scaled by `range` lies within distance |range| of the origin. */
  lemma ScaledDrawInDisc(range: real, d: Vec2)
    requires Norm2Sq(d) <= 1.0
    ensures InDisc(Scale2(range, d), range)
  {
    Scale2NormSq(range, d);
    assert range * range * Norm2Sq(d) <= range * range * 1.0 by {
      assert range * range >= 0.0;
    }
  }

  /** Every accepted point lies within the disc of radius |range|. */
  lemma {:induction false} FillInDisc(n: int, range: real, placed: seq<Vec2>, draws: seq<Vec2>)
    requires AllInDisc(placed, range) && UnitDraws(draws)
    ensures AllInDisc(Fill(n, range, placed, draws), range)
    decreases |draws|
  {
    if |placed| >= n || |draws| == 0 {
    } else {
      var c := Scale2(range, draws[0]);
      assert UnitDraws(draws[1..]) by {
        forall k | 0 <= k < |draws[1..]| ensures Norm2Sq(draws[1..][k]) <= 1.0 {
          assert draws[1..][k] == draws[k + 1];
        }
      }
      if Clear(c, placed) {
        ScaledDrawInDisc(range, draws[0]);
        assert AllInDisc(placed + [c], range) by {
          forall i | 0 <= i < |placed + [c]| ensures InDisc((placed + [c])[i], range) {
            if i < |placed| { assert (placed + [c])[i] == placed[i]; }
          }
        }
        FillInDisc(n, range, placed + [c], draws[1..]);
      } else {
        FillInDisc(n, range, placed, draws[1..]);
      }
    }
  }

  /** The candidates the oracle offers, in order: each draw scaled by `range`. */
  function Candidates(range: real, draws: seq<Vec2>): (cs: seq<Vec2>)
    ensures |cs| == |draws|
    ensures forall k :: 0 <= k < |draws| ==> cs[k] == Scale2(range, draws[k])
  {
    seq(|draws|, k requires 0 <= k < |draws| => Scale2(range, draws[k]))
  }

  /** Every newly accepted point is one of the offered candidates: nothing is invented. */
  lemma {:induction false} FillFromCandidates(n: int, range: real, placed: seq<Vec2>, draws: seq<Vec2>)
    ensures forall i :: |placed| <= i < |Fill(n, range, placed, draws)| ==>
              Fill(n, range, placed, draws)[i] in Candidates(range, draws)
    decreases |draws|
  {
    if |placed| >= n || |draws| == 0 {
    } else {
      var c := Scale2(range, draws[0]);
      var cs, rest := Candidates(range, draws), Candidates(range, draws[1..]);
      assert forall k :: 0 <= k < |rest| ==> rest[k] == cs[k + 1];
      assert c == cs[0];
      if Clear(c, placed) {
        FillFromCandidates(n, range, placed + [c], draws[1..]);
      } else {
        FillFromCandidates(n, range, placed, draws[1..]);
      }
    }
  }

  /**
   * A draw is never silently lost: if the placement ends short of `n` points, every
   * candidate offered was either accepted or is too close to an accepted point. So
   * a placement falls short only when the draws run out, and a candidate is dropped
   * only because it collides.
   */
  lemma {:induction false} FillShortOnlyWhenExhausted(n: int, range: real, placed: seq<Vec2>, draws: seq<Vec2>)
    ensures var r := Fill(n, range, placed, draws);
            |r| < n ==> forall k :: 0 <= k < |draws| ==>
              Scale2(range, draws[k]) in r || !Clear(Scale2(range, draws[k]), r)
    decreases |draws|
  {
    var r := Fill(n, range, placed, draws);
    if |placed| >= n || |draws| == 0 {
    } else if |r| < n {
      var c := Scale2(range, draws[0]);
      if Clear(c, placed) {
        assert r == Fill(n, range, placed + [c], draws[1..]);
        assert r[|placed|] == (placed + [c])[|placed|];
        FillShortOnlyWhenExhausted(n, range, placed + [c], draws[1..]);
      } else {
        assert r == Fill(n, range, placed, draws[1..]);
        var j :| 0 <= j < |placed| && TooClose(c, placed[j]);
        assert r[j] == placed[j];
        FillShortOnlyWhenExhausted(n, range, placed, draws[1..]);
      }
      forall k | 1 <= k < |draws|
        ensures Scale2(range, draws[k]) in r || !Clear(Scale2(range, draws[k]), r)
      {
        assert draws[k] == draws[1..][k - 1];
      }
    }
  }
}
