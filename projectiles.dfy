/**
 * The bombs of src/game/Player.ts. A bomb flies under its own gravity for a
 * fuse of 120 frames while bouncing off the ground blocks and walls, then
 * turns into an explosion that lives for at most 60 frames.
 *
 * An explosion's particles move by `Math.random()`. The model keeps only how
 * many are alive: each update is told how many of them died this frame.
 */
module Projectiles {
  import opened Utils
  import opened Terrain

  datatype Facing = Left | Right

  const BombGravity: real := 0.3
  const BombLaunchVy: real := -5.0
  const BombRadius: real := 8.0
  const BombFuse: int := 120
  const BombSize: int := 1
  /** Share of the speed kept by a bounce off the ground or a wall. */
  const BounceKeep: real := 0.6
  /** Share of the horizontal speed kept by a ground bounce. */
  const GroundFriction: real := 0.8
  /** Vertical speeds below this after a ground bounce are dropped to zero. */
  const BounceStop: real := 0.5

  const ExplosionDuration: int := 60
  const FireParticlesPerSize: int := 60
  const SmokeParticlesPerSize: int := 20
  const ShockwaveStart: real := 5.0
  const ShockwavePerSize: real := 50.0
  const ShockwaveGrowth: real := 0.15

  /** The kinematic state of a flying body. */
  datatype Flight = Flight(x: real, y: real, vx: real, vy: real)

  /** One frame of free flight: gravity first, then both coordinates move. */
  function Fly(f: Flight): Flight
  {
    Flight(f.x + f.vx, f.y + f.vy + BombGravity, f.vx, f.vy + BombGravity)
  }

  /** `n` frames of free flight. */
  function FlyN(f: Flight, n: nat): Flight
    decreases n
  {
    if n == 0 then f else FlyN(Fly(f), n - 1)
  }

  /**
   * Free flight in closed form: constant horizontal speed, vertical speed
   * growing by the gravity every frame, so the height follows
   * y + n*vy + g*n*(n+1)/2.
   */
  lemma {:induction false} FlyNClosedForm(f: Flight, n: nat)
    ensures FlyN(f, n).vx == f.vx
    ensures FlyN(f, n).x == f.x + n as real * f.vx
    ensures FlyN(f, n).vy == f.vy + n as real * BombGravity
    ensures FlyN(f, n).y == f.y + n as real * f.vy + BombGravity * (n * (n + 1)) as real / 2.0
    decreases n
  {
    if n > 0 {
      FlyNClosedForm(Fly(f), n - 1);
      var m := (n - 1) as real;
      assert (n * (n + 1)) as real == (m + 1.0) * (m + 2.0);
      assert ((n - 1) * n) as real == m * (m + 1.0);
    }
  }

  /** Frames compose: flying `m` then `n` frames is flying `m + n`. */
  lemma {:induction false} FlyNCompose(f: Flight, m: nat, n: nat)
    ensures FlyN(FlyN(f, m), n) == FlyN(f, m + n)
    decreases m
  {
    if m > 0 {
      FlyNCompose(Fly(f), m - 1, n);
    }
  }

  /** The flight a bomb starts on when thrown from (x, y). */
  function Launch(x: real, y: real, facing: Facing, strength: real): (f: Flight)
    ensures f.x == x && f.y == y && f.vy == BombLaunchVy
    ensures facing == Right ==> f.vx == strength
    ensures facing == Left ==> f.vx == -strength
  {
    Flight(x, y, if facing == Right then strength else -strength, BombLaunchVy)
  }

  /** The fields of an explosion. */
  datatype ExplosionState = ExplosionState(x: real, y: real, particles: nat, duration: int, active: bool,
                                           shockwaveRadius: real, shockwaveMaxRadius: real)

  /** A new explosion of the given size at (x, y). */
  function Ignite(x: real, y: real, size: int): ExplosionState
  {
    ExplosionState(x, y, if size <= 0 then 0 else (FireParticlesPerSize + SmokeParticlesPerSize) * size,
                   ExplosionDuration, true, ShockwaveStart, ShockwavePerSize * size as real)
  }

  /** One frame of an explosion in which `deaths` particles burn out. */
  function ExplosionStep(e: ExplosionState, deaths: nat): ExplosionState
  {
    var particles := if deaths >= e.particles then 0 else e.particles - deaths;
    var duration := e.duration - 1;
    e.(particles := particles,
       duration := duration,
       active := e.active && particles != 0 && duration > 0,
       shockwaveRadius := if e.shockwaveRadius < e.shockwaveMaxRadius
                          then e.shockwaveRadius + (e.shockwaveMaxRadius - e.shockwaveRadius) * ShockwaveGrowth
                          else e.shockwaveRadius)
  }

  /** The explosion a bomb turns into. */
  class Explosion {
    const x: real
    const y: real
    /** Number of live particles. */
    var particles: nat
    var duration: int
    var active: bool
    var shockwaveRadius: real
    const shockwaveMaxRadius: real

    /** An active explosion has frames left, and never more than it started with. */
    ghost predicate Valid()
      reads this
    {
      duration <= ExplosionDuration &&
      (active ==> 1 <= duration)
    }

    ghost function State(): ExplosionState
      reads this
    {
      ExplosionState(x, y, particles, duration, active, shockwaveRadius, shockwaveMaxRadius)
    }

    /** 60 fire and 20 smoke particles per unit of size, a 60-frame lifetime. */
    constructor (x: real, y: real, size: int)
      ensures Valid()
      ensures this.x == x && this.y == y
      ensures active && duration == ExplosionDuration
      ensures particles == if size <= 0 then 0 else (FireParticlesPerSize + SmokeParticlesPerSize) * size
      ensures shockwaveRadius == ShockwaveStart
      ensures shockwaveMaxRadius == ShockwavePerSize * size as real
      ensures State() == Ignite(x, y, size)
    {
      this.x := x;
      this.y := y;
      active := true;
      duration := ExplosionDuration;
      shockwaveRadius := ShockwaveStart;
      shockwaveMaxRadius := ShockwavePerSize * size as real;
      particles := if size <= 0 then 0 else (FireParticlesPerSize + SmokeParticlesPerSize) * size;
    }

    /**
     * One frame: `deaths` particles burn out, the shockwave grows 15% of the
     * way to its maximum, and the explosion goes out once no particle is
     * left or its frames run out. It never comes back.
     */
    method Update(deaths: nat)
      requires Valid()
      modifies this
      ensures Valid()
      ensures particles == if deaths >= old(particles) then 0 else old(particles) - deaths
      ensures duration == old(duration) - 1
      ensures active <==> old(active) && particles > 0 && duration > 0
      ensures old(shockwaveRadius) < shockwaveMaxRadius ==>
                old(shockwaveRadius) < shockwaveRadius < shockwaveMaxRadius
      ensures shockwaveMaxRadius <= old(shockwaveRadius) ==> shockwaveRadius == old(shockwaveRadius)
      ensures State() == ExplosionStep(old(State()), deaths)
    {
      particles := if deaths >= particles then 0 else particles - deaths;
      if shockwaveRadius < shockwaveMaxRadius {
        shockwaveRadius := shockwaveRadius + (shockwaveMaxRadius - shockwaveRadius) * ShockwaveGrowth;
      }
      duration := duration - 1;
      if particles == 0 || duration <= 0 {
        active := false;
      }
    }
  }

  /** The vertical speed after a ground bounce: reversed, damped, and dropped when small. */
  function DampBounce(vy: real): (r: real)
    ensures r == 0.0 || (Abs(r) >= BounceStop && Abs(r) == BounceKeep * Abs(vy))
    ensures Abs(r) <= BounceKeep * Abs(vy)
    ensures r != 0.0 ==> (r < 0.0 <==> vy > 0.0)
  {
    var v := -vy * BounceKeep;
    if Abs(v) < BounceStop then 0.0 else v
  }

  /**
   * The ground test of column `gx` for a bomb with centre (x, y) and
   * radius r: the column lies under the bomb's width, the cell of the row
   * holding the bomb's bottom is a block, and bomb and block overlap
   * horizontally with the bottom at or below the block's top.
   */
  ghost predicate GroundHitAt(cells: map<Cell, Material>, x: real, y: real, r: real, gx: int)
  {
    var row := GridOf(y + r);
    GridOf(x - r) <= gx <= GridOf(x + r) &&
    (gx, row) in cells &&
    x + r > gx as real * BlockSize && x - r < (gx + 1) as real * BlockSize &&
    y + r >= row as real * BlockSize
  }

  ghost predicate GroundHit(cells: map<Cell, Material>, x: real, y: real, r: real)
  {
    exists gx :: GroundHitAt(cells, x, y, r, gx)
  }

  /** The rows the bomb spans, in the column holding its left edge, hold a block within reach. */
  ghost predicate LeftWallAt(cells: map<Cell, Material>, x: real, y: real, r: real, gy: int)
  {
    var col := GridOf(x - r);
    GridOf(y - r) <= gy <= GridOf(y + r) &&
    (col, gy) in cells &&
    x - r <= (col + 1) as real * BlockSize
  }

  ghost predicate LeftWall(cells: map<Cell, Material>, x: real, y: real, r: real)
  {
    exists gy :: LeftWallAt(cells, x, y, r, gy)
  }

  ghost predicate RightWallAt(cells: map<Cell, Material>, x: real, y: real, r: real, gy: int)
  {
    var col := GridOf(x + r);
    GridOf(y - r) <= gy <= GridOf(y + r) &&
    (col, gy) in cells &&
    x + r >= col as real * BlockSize
  }

  ghost predicate RightWall(cells: map<Cell, Material>, x: real, y: real, r: real)
  {
    exists gy :: RightWallAt(cells, x, y, r, gy)
  }

  /**
   * Of the ground test's four comparisons only the horizontal right-edge one
   * can fail: the row is the one holding the bottom edge and the column is
   * at most the one holding the right edge.
   */
  lemma GroundHitAtIff(cells: map<Cell, Material>, x: real, y: real, r: real, gx: int)
    ensures GroundHitAt(cells, x, y, r, gx) <==>
              GridOf(x - r) <= gx <= GridOf(x + r) && (gx, GridOf(y + r)) in cells &&
              x + r > gx as real * BlockSize
  {
  }

  /**
   * The wall tests reduce to block presence: the left edge always lies
   * before the right side of its own column, and the right edge after the
   * left side of its own.
   */
  lemma WallTestsArePresence(cells: map<Cell, Material>, x: real, y: real, r: real, gy: int)
    ensures LeftWallAt(cells, x, y, r, gy) <==>
              GridOf(y - r) <= gy <= GridOf(y + r) && (GridOf(x - r), gy) in cells
    ensures RightWallAt(cells, x, y, r, gy) <==>
              GridOf(y - r) <= gy <= GridOf(y + r) && (GridOf(x + r), gy) in cells
  {
  }

  /**
   * After a ground bounce the bomb's bottom rests exactly on the block's
   * top, so the same block is still under it and the next test hits again
   * while the bomb has not moved.
   */
  lemma GroundBounceRests(cells: map<Cell, Material>, x: real, y: real, r: real, gx: int)
    requires 0.0 <= r
    requires GroundHitAt(cells, x, y, r, gx)
    ensures GroundHitAt(cells, x, GridOf(y + r) as real * BlockSize - r, r, gx)
  {
    var row := GridOf(y + r);
    GridOfEdge(row);
    assert GridOf((row as real * BlockSize - r) + r) == row;
  }

  /** A bomb's explosion, if it has one. */
  datatype Blast = NoBlast | Blast(state: ExplosionState)

  /** The fields of a bomb, with its explosion's. */
  datatype BombState = BombState(motion: Flight, radius: real, active: bool, timeToLive: int,
                                 isExploding: bool, blast: Blast)

  /** A bomb just thrown on flight `f`: full fuse, no explosion. */
  function LaunchState(f: Flight): BombState
  {
    BombState(f, BombRadius, true, BombFuse, false, NoBlast)
  }

  /**
   * One frame of a bomb. In flight: one step of free flight, one frame of
   * fuse, and an explosion where the bomb is once the fuse is spent.
   * Exploding: the explosion's frame, and the bomb goes out with it;
   * an exploding bomb without an explosion goes out at once.
   */
  function BombUpdate(s: BombState, deaths: nat): BombState
  {
    if s.isExploding then
      match s.blast
      case NoBlast => s.(active := false)
      case Blast(e) =>
        var e' := ExplosionStep(e, deaths);
        s.(blast := Blast(e'), active := s.active && e'.active)
    else
      var m := Fly(s.motion);
      if s.timeToLive - 1 <= 0 then
        s.(motion := m, timeToLive := s.timeToLive - 1, isExploding := true, radius := 0.0,
           blast := Blast(Ignite(m.x, m.y, BombSize)))
      else s.(motion := m, timeToLive := s.timeToLive - 1)
  }

  /** An exploding bomb that holds no explosion goes out, and nothing else about it changes. */
  lemma BombUpdateWithoutExplosion(s: BombState, deaths: nat)
    requires s.isExploding && s.blast == NoBlast
    ensures var r := BombUpdate(s, deaths); !r.active && r == s.(active := false)
  {
  }

  /**
   * A bomb's collision pass: nothing while exploding, else the first of the
   * ground, left-wall and right-wall tests that hits moves it out of the
   * block and damps its speed.
   */
  ghost function BombCollide(s: BombState, cells: map<Cell, Material>): BombState
  {
    var m := s.motion;
    var r := s.radius;
    if s.isExploding then s
    else if GroundHit(cells, m.x, m.y, r) then
      s.(motion := m.(y := GridOf(m.y + r) as real * BlockSize - r,
                      vx := m.vx * GroundFriction, vy := DampBounce(m.vy)))
    else if LeftWall(cells, m.x, m.y, r) then
      s.(motion := m.(x := (GridOf(m.x - r) + 1) as real * BlockSize + r, vx := -m.vx * BounceKeep))
    else if RightWall(cells, m.x, m.y, r) then
      s.(motion := m.(x := GridOf(m.x + r) as real * BlockSize - r, vx := -m.vx * BounceKeep))
    else s
  }

  /** A bomb's turn in its player's bomb loop: its frame, then its collision pass. */
  ghost function BombFrame(s: BombState, cells: map<Cell, Material>, deaths: nat): BombState
  {
    BombCollide(BombUpdate(s, deaths), cells)
  }

  /** The particle deaths a bomb's explosion is told about this frame; none without one. */
  function Deaths(e: Explosion?, deaths: Explosion -> nat): nat
  {
    if e == null then 0 else deaths(e)
  }

  /** What `Bomb.Valid` asks of a bomb's fields. */
  ghost predicate StateOk(s: BombState)
  {
    (!s.isExploding ==>
       s.blast == NoBlast && s.radius == BombRadius && 1 <= s.timeToLive <= BombFuse && s.active) &&
    (s.isExploding ==>
       s.blast.Blast? && s.radius == 0.0 && s.timeToLive == 0 &&
       s.blast.state.duration <= ExplosionDuration && (s.blast.state.active ==> 1 <= s.blast.state.duration) &&
       (s.active ==> s.blast.state.active))
  }

  /** The frames a bomb's fields leave it before it goes out, as `FramesLeft` counts them. */
  ghost function StateFrames(s: BombState): int
  {
    if s.isExploding then (if s.active && s.blast.Blast? then s.blast.state.duration else 0)
    else s.timeToLive + ExplosionDuration
  }

  /**
   * Each turn keeps the bomb well formed and brings an active bomb at least
   * one frame closer to its end, exactly one while in flight; a bomb that is
   * out stays out, and the collision pass never touches fuse or explosion.
   */
  lemma BombFrameCountsDown(s: BombState, cells: map<Cell, Material>, deaths: nat)
    requires StateOk(s)
    ensures var r := BombFrame(s, cells, deaths);
            StateOk(r) &&
            (s.active ==> StateFrames(r) < StateFrames(s)) &&
            (!s.isExploding ==> StateFrames(r) == StateFrames(s) - 1 && r.active) &&
            (!s.active ==> !r.active) &&
            r.blast == BombUpdate(s, deaths).blast && r.timeToLive == s.timeToLive - (if s.isExploding then 0 else 1)
  {
  }

  /**
   * A thrown bomb. It is either in flight with its 8-pixel radius and a
   * fuse of 1 to 120 frames, or exploding with a zero radius and a spent
   * fuse, and it stays active while its explosion does.
   */
  class Bomb {
    var x: real
    var y: real
    var vx: real
    var vy: real
    var radius: real
    var active: bool
    var timeToLive: int
    var explosion: Explosion?
    var isExploding: bool
    const size: int

    ghost predicate Valid()
      reads this, explosion
    {
      size == BombSize &&
      (!isExploding ==>
         explosion == null && radius == BombRadius && 1 <= timeToLive <= BombFuse && active) &&
      (isExploding ==>
         explosion != null && radius == 0.0 && timeToLive == 0 && explosion.Valid() &&
         (active ==> explosion.active))
    }

    ghost function Motion(): Flight
      reads this
    {
      Flight(x, y, vx, vy)
    }

    ghost function State(): BombState
      reads this, explosion
    {
      BombState(Motion(), radius, active, timeToLive, isExploding,
                if explosion == null then NoBlast else Blast(explosion.State()))
    }

    /** A bomb thrown from (x, y): the launch flight, a full fuse, no explosion yet. */
    constructor (x: real, y: real, facing: Facing, strength: real)
      ensures Valid()
      ensures Motion() == Launch(x, y, facing, strength)
      ensures !isExploding && active && explosion == null
      ensures timeToLive == BombFuse && radius == BombRadius
      ensures State() == LaunchState(Launch(x, y, facing, strength))
    {
      this.x := x;
      this.y := y;
      vx := if facing == Right then strength else -strength;
      vy := BombLaunchVy;
      radius := BombRadius;
      active := true;
      timeToLive := BombFuse;
      explosion := null;
      isExploding := false;
      size := BombSize;
    }

    /** The fuse ran out: an explosion appears where the bomb is, and the bomb vanishes. */
    method Explode()
      modifies this
      ensures fresh(explosion)
      ensures explosion.x == x && explosion.y == y && explosion.Valid()
      ensures explosion.State() == Ignite(x, y, size)
      ensures explosion.active && explosion.duration == ExplosionDuration
      ensures explosion.particles == if size <= 0 then 0 else (FireParticlesPerSize + SmokeParticlesPerSize) * size
      ensures isExploding && radius == 0.0
      ensures Motion() == old(Motion()) && active == old(active) && timeToLive == old(timeToLive)
      ensures size == BombSize && timeToLive == 0 && active ==> Valid()
    {
      explosion := new Explosion(x, y, size);
      isExploding := true;
      radius := 0.0;
    }

    /**
     * One frame. In flight the bomb takes one step of free flight and burns
     * a frame of fuse, exploding when the fuse is spent. While exploding it
     * advances its explosion and becomes inactive when that goes out.
     */
    method Update(deaths: Explosion -> nat)
      requires Valid()
      modifies this, explosion
      ensures Valid()
      ensures old(active) ==> FramesLeft(this) < old(FramesLeft(this))
      ensures !old(active) ==> !active
      ensures old(isExploding) ==>
                explosion == old(explosion) && Motion() == old(Motion()) && isExploding &&
                explosion.duration == old(explosion.duration) - 1 &&
                (active <==> old(active) && explosion.active)
      ensures !old(isExploding) ==>
                Motion() == Fly(old(Motion())) && active &&
                (timeToLive == 0 <==> old(timeToLive) == 1) &&
                (isExploding <==> old(timeToLive) == 1) &&
                (isExploding ==> fresh(explosion) && explosion.x == x && explosion.y == y) &&
                (!isExploding ==> timeToLive == old(timeToLive) - 1)
      ensures State() == BombUpdate(old(State()), Deaths(old(explosion), deaths))
    {
      if isExploding {
        var e := explosion;
        e.Update(deaths(e));
        if !e.active {
          active := false;
        }
        return;
      }
      vy := vy + BombGravity;
      x := x + vx;
      y := y + vy;
      timeToLive := timeToLive - 1;
      if timeToLive <= 0 {
        Explode();
      }
    }

    /**
     * Bounce against the block map, skipped while exploding. The ground is
     * checked first, column by column under the bomb; then the column at the
     * bomb's left edge, row by row; then the one at its right edge. The first
     * hit moves the bomb out of the block, damps its speed and ends the test.
     */
    method CollideWithMap(ground: GroundMap)
      requires Valid()
      modifies this
      ensures Valid()
      ensures isExploding == old(isExploding) && explosion == old(explosion)
      ensures active == old(active) && timeToLive == old(timeToLive)
      ensures old(isExploding) ==> Motion() == old(Motion())
      ensures !old(isExploding) && GroundHit(ground.cells, old(x), old(y), radius) ==>
                x == old(x) &&
                y == GridOf(old(y) + radius) as real * BlockSize - radius &&
                vy == DampBounce(old(vy)) && vx == old(vx) * GroundFriction
      ensures !old(isExploding) && !GroundHit(ground.cells, old(x), old(y), radius) &&
              LeftWall(ground.cells, old(x), old(y), radius) ==>
                x == (GridOf(old(x) - radius) + 1) as real * BlockSize + radius &&
                vx == -old(vx) * BounceKeep && y == old(y) && vy == old(vy)
      ensures !old(isExploding) && !GroundHit(ground.cells, old(x), old(y), radius) &&
              !LeftWall(ground.cells, old(x), old(y), radius) &&
              RightWall(ground.cells, old(x), old(y), radius) ==>
                x == GridOf(old(x) + radius) as real * BlockSize - radius &&
                vx == -old(vx) * BounceKeep && y == old(y) && vy == old(vy)
      ensures !old(isExploding) && !GroundHit(ground.cells, old(x), old(y), radius) &&
              !LeftWall(ground.cells, old(x), old(y), radius) &&
              !RightWall(ground.cells, old(x), old(y), radius) ==>
                Motion() == old(Motion())
      ensures State() == BombCollide(old(State()), ground.cells)
    {
      if isExploding {
        return;
      }
      var hit := BounceOffGround(ground);
      if hit {
        return;
      }
      hit := BounceOffLeftWall(ground);
      if hit {
        return;
      }
      hit := BounceOffRightWall(ground);
    }

    /** The floor scan: the columns under the bomb, in the row of its bottom edge. */
    method BounceOffGround(ground: GroundMap) returns (hit: bool)
      requires Valid() && !isExploding
      modifies this
      ensures Valid() && !isExploding && explosion == old(explosion)
      ensures active == old(active) && timeToLive == old(timeToLive)
      ensures hit <==> GroundHit(ground.cells, old(x), old(y), radius)
      ensures hit ==>
                x == old(x) &&
                y == GridOf(old(y) + radius) as real * BlockSize - radius &&
                vy == DampBounce(old(vy)) && vx == old(vx) * GroundFriction
      ensures !hit ==> Motion() == old(Motion())
    {
      var bombLeft := x - radius;
      var bombRight := x + radius;
      var bombBottom := y + radius;

      var checkMinGridX := GridOf(bombLeft);
      var checkMaxGridX := GridOf(bombRight);
      var checkGridY := GridOf(bombBottom);
      var gx := checkMinGridX;
      while gx <= checkMaxGridX
        invariant checkMinGridX <= gx <= checkMaxGridX + 1
        invariant forall g :: checkMinGridX <= g < gx ==> !GroundHitAt(ground.cells, x, y, radius, g)
      {
        if (gx, checkGridY) in ground.cells {
          var blockTop := checkGridY as real * BlockSize;
          var blockLeft := gx as real * BlockSize;
          var blockRight := blockLeft + BlockSize;
          if bombRight > blockLeft && bombLeft < blockRight {
            if bombBottom >= blockTop {
              assert GroundHitAt(ground.cells, x, y, radius, gx);
              y := blockTop - radius;
              vy := -vy * BounceKeep;
              vx := vx * GroundFriction;
              if Abs(vy) < BounceStop {
                vy := 0.0;
              }
              return true;
            }
          }
        }
        gx := gx + 1;
      }
      return false;
    }

    /** The left wall scan: the rows the bomb spans, in the column of its left edge. */
    method BounceOffLeftWall(ground: GroundMap) returns (hit: bool)
      requires Valid() && !isExploding
      modifies this
      ensures Valid() && !isExploding && explosion == old(explosion)
      ensures active == old(active) && timeToLive == old(timeToLive)
      ensures hit <==> LeftWall(ground.cells, old(x), old(y), radius)
      ensures hit ==>
                x == (GridOf(old(x) - radius) + 1) as real * BlockSize + radius &&
                vx == -old(vx) * BounceKeep && y == old(y) && vy == old(vy)
      ensures !hit ==> Motion() == old(Motion())
    {
      var bombLeft := x - radius;
      var bombTop := y - radius;
      var bombBottom := y + radius;
      var checkMinGridY := GridOf(bombTop);
      var checkMaxGridY := GridOf(bombBottom);

      var leftGridX := GridOf(bombLeft);
      var gy := checkMinGridY;
      while gy <= checkMaxGridY
        invariant checkMinGridY <= gy <= checkMaxGridY + 1
        invariant forall g :: checkMinGridY <= g < gy ==> !LeftWallAt(ground.cells, x, y, radius, g)
      {
        if (leftGridX, gy) in ground.cells {
          var blockRight := (leftGridX + 1) as real * BlockSize;
          if bombLeft <= blockRight {
            assert LeftWallAt(ground.cells, x, y, radius, gy);
            x := blockRight + radius;
            vx := -vx * BounceKeep;
            return true;
          }
        }
        gy := gy + 1;
      }
      return false;
    }

    /** The right wall scan: the rows the bomb spans, in the column of its right edge. */
    method BounceOffRightWall(ground: GroundMap) returns (hit: bool)
      requires Valid() && !isExploding
      modifies this
      ensures Valid() && !isExploding && explosion == old(explosion)
      ensures active == old(active) && timeToLive == old(timeToLive)
      ensures hit <==> RightWall(ground.cells, old(x), old(y), radius)
      ensures hit ==>
                x == GridOf(old(x) + radius) as real * BlockSize - radius &&
                vx == -old(vx) * BounceKeep && y == old(y) && vy == old(vy)
      ensures !hit ==> Motion() == old(Motion())
    {
      var bombRight := x + radius;
      var bombTop := y - radius;
      var bombBottom := y + radius;
      var checkMinGridY := GridOf(bombTop);
      var checkMaxGridY := GridOf(bombBottom);

      var rightGridX := GridOf(bombRight);
      var gy := checkMinGridY;
      while gy <= checkMaxGridY
        invariant checkMinGridY <= gy <= checkMaxGridY + 1
        invariant forall g :: checkMinGridY <= g < gy ==> !RightWallAt(ground.cells, x, y, radius, g)
      {
        if (rightGridX, gy) in ground.cells {
          var blockLeft := rightGridX as real * BlockSize;
          if bombRight >= blockLeft {
            assert RightWallAt(ground.cells, x, y, radius, gy);
            x := blockLeft - radius;
            vx := -vx * BounceKeep;
            return true;
          }
        }
        gy := gy + 1;
      }
      return false;
    }
  }

  /**
   * The longest a bomb stays active: at most 119 frames of flight after the
   * throw, then at most 60 of explosion. Stated on the fuse and duration
   * counters: a valid bomb that is still active has at most this many
   * updates left before it goes inactive.
   */
  ghost function FramesLeft(b: Bomb): int
    reads b, b.explosion
    requires b.Valid()
  {
    if b.isExploding then (if b.active then b.explosion.duration else 0)
    else b.timeToLive + ExplosionDuration
  }

  /** `FramesLeft` counts on a bomb's fields. */
  lemma FramesLeftOfState(b: Bomb)
    requires b.Valid()
    ensures StateOk(b.State()) && FramesLeft(b) == StateFrames(b.State())
  {
  }

  lemma FramesLeftBounded(b: Bomb)
    requires b.Valid()
    ensures 0 <= FramesLeft(b) <= BombFuse + ExplosionDuration
    ensures b.active <==> FramesLeft(b) > 0
  {
  }
}
