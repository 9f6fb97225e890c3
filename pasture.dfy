/**
 * The level and its sheep (Assets/Level.cs and Assets/Sheep.cs). The two classes
 * refer to each other, as in the game: the level spawns the sheep and hands each
 * one a reference to itself; a clicked sheep calls back into its level.
 *
 * Randomness, physics and coroutine timing are inputs: the level's placement draws
 * come as a sequence of unit-disc points, a sheep's seek offset as a point of the
 * unit ball and a sampled radius, its distance to the target and its current speed
 * as numbers the physics engine supplies, and the body's position is a field the
 * engine writes. Each resumption of the Graze coroutine is one method call.
 */
module Pasture {
  import opened Geometry
  import opened Placement
  import opened Motion
  import opened Progress

  datatype Option<T> = None | Some(value: T)

  /** The inspector values Instantiate copies from the sheep prefab. */
  datatype Prefab = Prefab(speed: real, mass: real)

  /** Height at which a sheep is spawned above its accepted ground point. */
  const SpawnHeight: real := 0.5

  /** Where a spawn point lands in the scene: (p.x, 0.5, p.y). */
  function SpawnPoint(p: Vec2): (q: Vec3)
    ensures q.y == SpawnHeight && Vec2(q.x, q.z) == p
  {
    Vec3(p.x, SpawnHeight, p.y)
  }

  class Level {
    const totalSheep: int
    const range: real
    /** Scene loaded after a win. */
    const next: string
    /** The sheep prefab. */
    const sheep: Prefab
    var sheepCount: int
    /** The end-of-round coroutines started so far, in order. */
    var started: seq<Transition>
    /** The sheep this level has instantiated, in spawn order. */
    var flock: seq<Sheep>

    function Snapshot(): Round
      reads this
    {
      Round(sheepCount, started)
    }

    /** Every sheep of the flock is a different object and points back at this level. */
    ghost predicate Owns()
      reads this, flock
    {
      (forall j :: 0 <= j < |flock| ==> flock[j].level == this) &&
      (forall a, b :: 0 <= a < b < |flock| ==> flock[a] != flock[b])
    }

    /** The scene as the round model sees it: which sheep are counted, and the progress. */
    ghost function Scene(): Field
      reads this, flock
    {
      var herd := flock;
      Field(seq(|herd|, j requires 0 <= j < |herd| reads herd => herd[j].counted), Snapshot())
    }

    constructor (totalSheep: int, range: real, next: string, sheep: Prefab)
      ensures this.totalSheep == totalSheep && this.range == range
      ensures this.next == next && this.sheep == sheep
      ensures Snapshot() == Fresh && flock == []
    {
      this.totalSheep := totalSheep;
      this.range := range;
      this.next := next;
      this.sheep := sheep;
      sheepCount := 0;
      started := [];
      flock := [];
    }

    /**
     * Places the flock. Each of the `totalSheep` sheep draws candidates from `draws`
     * until one is clear of every sheep already placed; the candidate is appended to
     * `positions` and a sheep is instantiated above it, pointing back at this level.
     * If the draws run out first, Start stops with `complete` false; the game itself
     * would go on drawing.
     */
    method Start(draws: seq<Vec2>) returns (positions: seq<Vec2>, complete: bool)
      requires flock == []
      modifies this`flock
      ensures positions == Fill(totalSheep, range, [], draws)
      ensures Separated(positions)
      ensures UnitDraws(draws) ==> AllInDisc(positions, range)
      ensures complete <==> |positions| >= totalSheep
      ensures complete && totalSheep >= 0 ==> |positions| == totalSheep
      ensures !complete ==> forall k :: 0 <= k < |draws| ==>
                Scale2(range, draws[k]) in positions || !Clear(Scale2(range, draws[k]), positions)
      ensures |flock| == |positions|
      ensures forall i :: 0 <= i < |flock| ==> fresh(flock[i]) && flock[i].SpawnedAt(this, positions[i])
      ensures Owns()
    {
      positions := [];
      var k := 0;
      var i := 0;
      while i < totalSheep
        invariant 0 <= k <= |draws|
        invariant i == |positions| == |flock|
        invariant Fill(totalSheep, range, positions, draws[k..]) == Fill(totalSheep, range, [], draws)
        invariant forall j :: 0 <= j < i ==> fresh(flock[j]) && flock[j].SpawnedAt(this, positions[j])
        invariant Owns()
      {
        var position := Vec2(0.0, 0.0);
        var collision := true;
        while collision && k < |draws|
          invariant 0 <= k <= |draws|
          invariant collision ==> Fill(totalSheep, range, positions, draws[k..]) == Fill(totalSheep, range, [], draws)
          invariant !collision ==> Clear(position, positions)
          invariant !collision ==>
            Fill(totalSheep, range, positions + [position], draws[k..]) == Fill(totalSheep, range, [], draws)
        {
          collision := false;
          position := Scale2(range, draws[k]);
          var j := 0;
          while j < |positions|
            invariant 0 <= j <= |positions|
            invariant forall j' :: 0 <= j' < j ==> !TooClose(position, positions[j'])
          {
            if TooClose(position, positions[j]) {
              collision := true;
              break;
            }
            j := j + 1;
          }
          assert draws[k..][0] == draws[k] && draws[k..][1..] == draws[k + 1..];
          k := k + 1;
        }
        if collision {
          assert draws[k..] == [];
          complete := false;
          FillSeparated(totalSheep, range, [], draws);
          if UnitDraws(draws) {
            FillInDisc(totalSheep, range, [], draws);
          }
          FillShortOnlyWhenExhausted(totalSheep, range, [], draws);
          return;
        }
        positions := positions + [position];
        var s := new Sheep.Instantiate(sheep, SpawnPoint(position));
        s.level := this;
        flock := flock + [s];
        i := i + 1;
      }
      complete := true;
      FillSeparated(totalSheep, range, [], draws);
      if UnitDraws(draws) {
        FillInDisc(totalSheep, range, [], draws);
      }
    }

    /** One more sheep counted; YouWin starts on the call where the count reaches the total. */
    method CountSheep()
      modifies this`sheepCount, this`started
      ensures Snapshot() == AfterCount(totalSheep, old(Snapshot()))
    {
      sheepCount := sheepCount + 1;
      if totalSheep == sheepCount {
        started := started + [YouWin];
      }
    }

    /** A sheep was clicked twice: YouLose starts, and the count is left alone. */
    method DoubleCount()
      modifies this`started
      ensures Snapshot() == AfterDoubleCount(old(Snapshot()))
    {
      started := started + [YouLose];
    }
  }

  /** Where the Graze coroutine of a sheep is suspended. */
  datatype Phase =
    | Dormant  // the one-off initial wait
    | Seeking  // waiting while moving and not yet at the target
    | Grazing  // the grazing wait between two seeks

  class Sheep {
    const speed: real
    const mass: real
    var level: Level?
    /** The rigid body's position, written by the physics engine. */
    var position: Vec3
    var move: bool
    var target: Vec3
    var counted: bool
    var phase: Phase

    /** The body is only driven while the Graze loop is seeking. */
    ghost predicate Valid()
      reads this
    {
      move ==> phase == Seeking
    }

    /** Just instantiated at `p` by `level`, with the prefab's settings, before anything happened to it. */
    ghost predicate SpawnedAt(level: Level, p: Vec2)
      reads this
    {
      this.level == level && position == SpawnPoint(p) &&
      speed == level.sheep.speed && mass == level.sheep.mass &&
      !move && !counted && phase == Dormant
    }

    /** A copy of the prefab at `position`: not moving, not counted, its Graze loop in its initial wait. */
    constructor Instantiate(prefab: Prefab, position: Vec3)
      ensures Valid()
      ensures speed == prefab.speed && mass == prefab.mass && this.position == position
      ensures level == null && !move && !counted && phase == Dormant && target == Zero3
    {
      speed := prefab.speed;
      mass := prefab.mass;
      level := null;
      this.position := position;
      move := false;
      target := Zero3;
      counted := false;
      phase := Dormant;
    }

    /**
     * Graze, after the initial wait or a grazing wait: the target is the body's
     * position moved by the seek offset in the ground plane, and the sheep starts
     * moving. `ball` is the unit-ball draw and `radius` the sampled search radius.
     */
    method BeginSeek(ball: Vec3, radius: real)
      requires Valid() && phase != Seeking
      requires Norm3Sq(ball) <= 1.0
      modifies this`target, this`move, this`phase
      ensures Valid() && move && phase == Seeking
      ensures target == SeekTarget(position, SeekOffset(ball, radius))
      ensures target.y == position.y && Dist3Sq(target, position) <= radius * radius
    {
      var offset := SeekOffset(ball, radius);
      target := SeekTarget(position, offset);
      move := true;
      phase := Seeking;
      SeekWithinRadius(position, ball, radius);
    }

    /**
     * Graze, checking its wait: the seek ends once the sheep is no longer moving or is
     * within 0.01 of its target; then `move` is cleared and the grazing wait begins.
     * Otherwise nothing changes.
     */
    method PollSeek() returns (over: bool)
      requires Valid() && phase == Seeking
      modifies this`move, this`phase
      ensures Valid()
      ensures over == SeekOver(old(move), position, target)
      ensures over ==> !move && phase == Grazing
      ensures !over ==> move == old(move) && phase == Seeking
    {
      over := SeekOver(move, position, target);
      if over {
        move := false;
        phase := Grazing;
      }
    }

    /** Any collision stops the sheep; the Graze loop notices at its next check. */
    method OnCollisionEnter()
      requires Valid()
      modifies this`move
      ensures Valid() && !move
    {
      move := false;
    }

    /**
     * The first click counts this sheep with its level; any later click reports a
     * double count. `counted` is set either way and never cleared; `move`,
     * `target` and the Graze loop are not touched.
     */
    method OnPointerClick()
      requires level != null
      modifies this`counted, level`sheepCount, level`started
      ensures counted
      ensures move == old(move) && target == old(target) && phase == old(phase)
      ensures level.Snapshot() == Deliver(level.totalSheep, old(level.Snapshot()), ClickReport(old(counted)))
    {
      if counted {
        level.DoubleCount();
      } else {
        counted := true;
        level.CountSheep();
      }
    }

    /**
     * The physics tick: only while moving, and so only while the Graze loop is
     * seeking, a force is applied that matches the body's speed `u` to the distance
     * `d` to the target, capped at `speed`. `d` and `u` are the magnitudes the
     * engine computes.
     */
    method FixedUpdate(d: real, u: real) returns (force: Option<Vec3>)
      requires Valid()
      requires 0.0 <= d && d * d == Dist3Sq(position, target) && 0.0 <= u
      ensures force.Some? <==> move
      ensures force.Some? ==> phase == Seeking
      ensures move ==> force.value == DriveForce(position, target, d, u, speed, mass)
      ensures move && d > NormalizeEpsilon ==>
                var a := SpeedError(d, u, speed);
                Norm3Sq(force.value) == (mass * a) * (mass * a) &&
                Dot3(force.value, Sub3(target, position)) == mass * a * d
    {
      if move {
        force := Some(DriveForce(position, target, d, u, speed, mass));
        if d > NormalizeEpsilon {
          DriveForceAlongLine(position, target, d, u, speed, mass);
        }
      } else {
        force := None;
      }
    }
  }

  /**
   * The input system delivers a click to `sheep`, the `i`-th of the level's flock:
   * the scene moves exactly as the round model's ClickSheep says, so the lemmas
   * about `Progress.Play` hold of the objects.
   */
  method DeliverClick(level: Level, i: nat, sheep: Sheep)
    requires level.Owns() && i < |level.flock| && level.flock[i] == sheep
    modifies sheep`counted, level`sheepCount, level`started
    ensures level.Owns()
    ensures level.Scene() == ClickSheep(level.totalSheep, old(level.Scene()), i)
  {
    sheep.OnPointerClick();
  }
}
