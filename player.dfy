/**
 * The player of src/game/Player.ts: keyboard steering with a speed cap,
 * jumping, gravity, the axis-aligned hitbox resolved against the block
 * grid, and the bomb charge / throw / cooldown cycle with its trajectory
 * preview.
 *
 * Each frame-step piece is specified by a pure function on a `Body` value
 * (position, speed and the two ground flags); the class methods are proved
 * to follow those functions, and the lemmas state what the functions
 * guarantee.
 */
module Players {
  import opened Utils
  import opened Terrain
  import opened Projectiles

  const Gravity: real := 0.5
  const JumpStrength: real := -12.0
  const MoveSpeed: real := 0.8
  const MaxSpeed: real := 7.0
  const Friction: real := 0.9
  /** Horizontal speeds below this are zeroed. */
  const StopSpeed: real := 0.1
  const HitboxPaddingX: real := 5.0
  const HitboxPaddingY: real := 11.0
  const MaxBombChargeTime: int := 90
  const MinBombThrowStrength: real := 4.0
  const MaxBombThrowStrength: real := 12.0
  const BombCooldown: int := 30
  /** The preview keeps one simulated position in three, of at most 60. */
  const TrajectoryTimeStep: int := 3
  const TrajectoryMaxSteps: int := 60

  /** The keys read on one frame; `hasBombKey` is false when no bomb key is configured. */
  datatype Keys = Keys(left: bool, right: bool, jump: bool, hasBombKey: bool, bomb: bool)

  /** Position, speed and ground flags. */
  datatype Body = Body(x: real, y: real, vx: real, vy: real, onGround: bool, jumping: bool)

  datatype Point = Point(x: real, y: real)

  // ---------------------------------------------------------------------------
  // Input, gravity and motion
  // ---------------------------------------------------------------------------

  /**
   * The horizontal speed after the steering keys: the left key wins over the
   * right one, friction acts only with neither pressed, the speed is capped
   * at 7 either way, and what is left below 0.1 is dropped.
   */
  function SteerVx(vx: real, left: bool, right: bool): (r: real)
    ensures Abs(r) <= MaxSpeed
    ensures r == 0.0 || Abs(r) >= StopSpeed
  {
    var pushed := if left then vx - MoveSpeed else if right then vx + MoveSpeed else vx * Friction;
    var capped := Max(-MaxSpeed, Min(MaxSpeed, pushed));
    if Abs(capped) < StopSpeed then 0.0 else capped
  }

  /** Holding both keys is holding the left one. */
  lemma SteerLeftPriority(vx: real, right: bool)
    ensures SteerVx(vx, true, right) == SteerVx(vx, true, false)
  {
  }

  /**
   * From a speed within the cap, a held key never slows the body in its
   * direction, and no key never makes it faster or turns it around.
   */
  lemma SteerTowardKey(vx: real, left: bool, right: bool)
    requires Abs(vx) <= MaxSpeed
    ensures left ==> SteerVx(vx, left, right) <= vx
    ensures !left && right ==> SteerVx(vx, left, right) >= vx
    ensures !left && !right ==> Abs(SteerVx(vx, left, right)) <= Abs(vx)
    ensures !left && !right ==> SteerVx(vx, left, right) * vx >= 0.0
  {
    if !left && !right {
      var r := SteerVx(vx, left, right);
      if r != 0.0 {
        assert r == vx * Friction;
        assert r * vx == Friction * (vx * vx);
        if vx >= 0.0 { MulNonNeg(vx, vx); } else { MulNonNeg(-vx, -vx); }
      }
    }
  }

  /** Steering and the jump: the jump needs the key, the ground, and no jump in progress. */
  function Steer(b: Body, keys: Keys): (r: Body)
    ensures r.x == b.x && r.y == b.y
    ensures r.vx == SteerVx(b.vx, keys.left, keys.right)
    ensures (keys.jump && b.onGround && !b.jumping) ==>
              r.vy == JumpStrength && r.jumping && !r.onGround
    ensures !(keys.jump && b.onGround && !b.jumping) ==>
              r.vy == b.vy && r.jumping == b.jumping && r.onGround == b.onGround
  {
    var b1 := b.(vx := SteerVx(b.vx, keys.left, keys.right));
    if keys.jump && b1.onGround && !b1.jumping then
      b1.(vy := JumpStrength, jumping := true, onGround := false)
    else b1
  }

  /** A jump can only start from the ground: after steering a body is never both jumping and grounded anew. */
  lemma JumpLeavesGround(b: Body, keys: Keys)
    requires !(b.onGround && b.jumping)
    ensures !(Steer(b, keys).onGround && Steer(b, keys).jumping)
  {
  }

  /** Gravity acts only off the ground. */
  function Fall(b: Body): (r: Body)
    ensures b.onGround ==> r == b
    ensures !b.onGround ==> r == b.(vy := b.vy + Gravity)
  {
    if !b.onGround then b.(vy := b.vy + Gravity) else b
  }

  /** One frame of motion at the current speed. */
  function Move(b: Body): (r: Body)
    ensures r.x - b.x == b.vx && r.y - b.y == b.vy
    ensures r.vx == b.vx && r.vy == b.vy && r.onGround == b.onGround && r.jumping == b.jumping
  {
    b.(x := b.x + b.vx, y := b.y + b.vy)
  }

  // ---------------------------------------------------------------------------
  // Hitbox against the block grid
  // ---------------------------------------------------------------------------

  datatype Box = Box(left: real, right: real, top: real, bottom: real)

  /** The hitbox: the base rectangle padded by 5 on the sides and 11 above and below. */
  function Hitbox(b: Body, w: real, h: real): (hb: Box)
    ensures hb.right - hb.left == w + 2.0 * HitboxPaddingX
    ensures hb.bottom - hb.top == h + 2.0 * HitboxPaddingY
    ensures hb.left == b.x - HitboxPaddingX && hb.bottom == b.y + h + HitboxPaddingY
  {
    Box(b.x - HitboxPaddingX, b.x + w + HitboxPaddingX, b.y - HitboxPaddingY, b.y + h + HitboxPaddingY)
  }

  function BlockBox(gx: int, gy: int): Box
  {
    Box(gx as real * BlockSize, gx as real * BlockSize + BlockSize,
        gy as real * BlockSize, gy as real * BlockSize + BlockSize)
  }

  /** Strict overlap: boxes that only touch do not collide. */
  predicate Overlaps(a: Box, c: Box)
  {
    a.left < c.right && a.right > c.left && a.top < c.bottom && a.bottom > c.top
  }

  function OverlapX(a: Box, c: Box): real
  {
    Min(a.right - c.left, c.right - a.left)
  }

  function OverlapY(a: Box, c: Box): real
  {
    Min(a.bottom - c.top, c.bottom - a.top)
  }

  /**
   * One grid cell. A block overlapping the hitbox is resolved along the
   * axis of smaller penetration, ties horizontal: landing on its top or
   * bumping its bottom, or stopping against its left or right side. Each of
   * the four needs the body to be moving that way and the hitbox to straddle
   * that side; otherwise the overlap is left as it is.
   */
  function ResolveCell(b: Body, cells: map<Cell, Material>, gx: int, gy: int, w: real, h: real): Body
  {
    var hb := Hitbox(b, w, h);
    var bl := BlockBox(gx, gy);
    if (gx, gy) !in cells || !Overlaps(hb, bl) then b
    else if OverlapY(hb, bl) < OverlapX(hb, bl) then
      if b.vy >= 0.0 && hb.bottom > bl.top && hb.top < bl.top then
        b.(y := bl.top - h - HitboxPaddingY, vy := 0.0, onGround := true, jumping := false)
      else if b.vy < 0.0 && hb.top < bl.bottom && hb.bottom > bl.bottom then
        b.(y := bl.bottom + HitboxPaddingY, vy := 0.0)
      else b
    else
      if b.vx > 0.0 && hb.right > bl.left && hb.left < bl.left then
        b.(x := bl.left - w - HitboxPaddingX, vx := 0.0)
      else if b.vx < 0.0 && hb.left < bl.right && hb.right > bl.right then
        b.(x := bl.right + HitboxPaddingX, vx := 0.0)
      else b
  }

  /** Cells `gx..maxGx` of row `gy`, left to right. */
  function ResolveRow(b: Body, cells: map<Cell, Material>, gx: int, maxGx: int, gy: int, w: real, h: real): Body
    decreases maxGx - gx + 1
  {
    if gx > maxGx then b
    else ResolveRow(ResolveCell(b, cells, gx, gy, w, h), cells, gx + 1, maxGx, gy, w, h)
  }

  /** Rows `gy..maxGy`, top to bottom, each over columns `minGx..maxGx`. */
  function ResolveRows(b: Body, cells: map<Cell, Material>, minGx: int, maxGx: int, gy: int, maxGy: int,
                       w: real, h: real): Body
    decreases maxGy - gy + 1
  {
    if gy > maxGy then b
    else ResolveRows(ResolveRow(b, cells, minGx, maxGx, gy, w, h), cells, minGx, maxGx, gy + 1, maxGy, w, h)
  }

  /**
   * The whole collision pass: the ground flag is reset, the cell range is
   * taken once from the hitbox at the start, and the cells are resolved in
   * row-major order against the hitbox as it moves.
   */
  function Collide(b: Body, cells: map<Cell, Material>, w: real, h: real): Body
  {
    var start := b.(onGround := false);
    var hb := Hitbox(start, w, h);
    ResolveRows(start, cells, GridOf(hb.left), GridOf(hb.right), GridOf(hb.top), GridOf(hb.bottom), w, h)
  }

  /**
   * The axis choice: with a block overlapping, the vertical fields change
   * only when the vertical penetration is strictly smaller, and the
   * horizontal ones only otherwise. An empty or non-overlapping cell changes
   * nothing.
   */
  lemma ResolveCellAxis(b: Body, cells: map<Cell, Material>, gx: int, gy: int, w: real, h: real)
    ensures var r := ResolveCell(b, cells, gx, gy, w, h);
            var hb := Hitbox(b, w, h);
            var bl := BlockBox(gx, gy);
            ((gx, gy) !in cells || !Overlaps(hb, bl) ==> r == b) &&
            (OverlapY(hb, bl) < OverlapX(hb, bl) ==> r.x == b.x && r.vx == b.vx) &&
            (OverlapY(hb, bl) >= OverlapX(hb, bl) ==> r == b.(x := r.x, vx := r.vx))
  {
  }

  /**
   * A landing puts the hitbox bottom on the block's top, stops the fall,
   * marks the body grounded and ends the jump; it is the only way the ground
   * flag is set.
   */
  lemma ResolveCellLanding(b: Body, cells: map<Cell, Material>, gx: int, gy: int, w: real, h: real)
    requires !b.onGround
    ensures var r := ResolveCell(b, cells, gx, gy, w, h);
            r.onGround ==> (gx, gy) in cells && Hitbox(r, w, h).bottom == gy as real * BlockSize &&
                           r.vy == 0.0 && !r.jumping && b.vy >= 0.0
  {
  }

  /**
   * A grounded body stands still vertically, is not jumping, and its hitbox
   * bottom lies on the top of a block of the map in columns `minGx..maxGx`
   * and rows `minGy..maxGy`.
   */
  ghost predicate Grounded(b: Body, cells: map<Cell, Material>, h: real,
                           minGx: int, maxGx: int, minGy: int, maxGy: int)
  {
    b.onGround ==>
      b.vy == 0.0 && !b.jumping &&
      exists gx, gy :: minGx <= gx <= maxGx && minGy <= gy <= maxGy && (gx, gy) in cells &&
                       b.y + h + HitboxPaddingY == gy as real * BlockSize
  }

  /**
   * A cell of the range keeps a body grounded in the range: a grounded body
   * has no vertical speed, so the one vertical move left to it is a new
   * landing, on this cell.
   */
  lemma ResolveCellGrounded(b: Body, cells: map<Cell, Material>, gx: int, gy: int, w: real, h: real,
                            minGx: int, maxGx: int, minGy: int, maxGy: int)
    requires minGx <= gx <= maxGx && minGy <= gy <= maxGy
    requires Grounded(b, cells, h, minGx, maxGx, minGy, maxGy)
    ensures Grounded(ResolveCell(b, cells, gx, gy, w, h), cells, h, minGx, maxGx, minGy, maxGy)
  {
    var r := ResolveCell(b, cells, gx, gy, w, h);
    if r.onGround && r.y != b.y {
      assert (gx, gy) in cells && r.y + h + HitboxPaddingY == gy as real * BlockSize;
    }
  }

  lemma {:induction false} ResolveRowGrounded(b: Body, cells: map<Cell, Material>, gx: int, maxGx: int, gy: int,
                                              w: real, h: real, minGx: int, minGy: int, maxGy: int)
    requires minGx <= gx && minGy <= gy <= maxGy
    requires Grounded(b, cells, h, minGx, maxGx, minGy, maxGy)
    ensures Grounded(ResolveRow(b, cells, gx, maxGx, gy, w, h), cells, h, minGx, maxGx, minGy, maxGy)
    decreases maxGx - gx + 1
  {
    if gx <= maxGx {
      ResolveCellGrounded(b, cells, gx, gy, w, h, minGx, maxGx, minGy, maxGy);
      ResolveRowGrounded(ResolveCell(b, cells, gx, gy, w, h), cells, gx + 1, maxGx, gy, w, h, minGx, minGy, maxGy);
    }
  }

  lemma {:induction false} ResolveRowsGrounded(b: Body, cells: map<Cell, Material>, minGx: int, maxGx: int,
                                               gy: int, maxGy: int, w: real, h: real, minGy: int)
    requires minGy <= gy
    requires Grounded(b, cells, h, minGx, maxGx, minGy, maxGy)
    ensures Grounded(ResolveRows(b, cells, minGx, maxGx, gy, maxGy, w, h), cells, h, minGx, maxGx, minGy, maxGy)
    decreases maxGy - gy + 1
  {
    if gy <= maxGy {
      ResolveRowGrounded(b, cells, minGx, maxGx, gy, w, h, minGx, minGy, maxGy);
      ResolveRowsGrounded(ResolveRow(b, cells, minGx, maxGx, gy, w, h), cells, minGx, maxGx, gy + 1, maxGy, w, h, minGy);
    }
  }

  /**
   * After the collision pass the ground flag is true only if a landing
   * happened during it: the body then stands, with no vertical speed and no
   * jump in progress, on the top of a block among the cells the pass
   * visited, those under the hitbox at the start of the pass.
   */
  lemma CollideGrounded(b: Body, cells: map<Cell, Material>, w: real, h: real)
    ensures var hb := Hitbox(b, w, h);
            Grounded(Collide(b, cells, w, h), cells, h,
                     GridOf(hb.left), GridOf(hb.right), GridOf(hb.top), GridOf(hb.bottom))
  {
    var start := b.(onGround := false);
    var hb := Hitbox(start, w, h);
    assert hb == Hitbox(b, w, h);
    ResolveRowsGrounded(start, cells, GridOf(hb.left), GridOf(hb.right), GridOf(hb.top), GridOf(hb.bottom), w, h,
                        GridOf(hb.top));
  }

  lemma {:induction false} ResolveRowEmpty(b: Body, cells: map<Cell, Material>, gx: int, maxGx: int, gy: int,
                                           w: real, h: real)
    requires forall g :: gx <= g <= maxGx ==> (g, gy) !in cells
    ensures ResolveRow(b, cells, gx, maxGx, gy, w, h) == b
    decreases maxGx - gx + 1
  {
    if gx <= maxGx {
      ResolveRowEmpty(b, cells, gx + 1, maxGx, gy, w, h);
    }
  }

  lemma {:induction false} ResolveRowsEmpty(b: Body, cells: map<Cell, Material>, minGx: int, maxGx: int,
                                            gy: int, maxGy: int, w: real, h: real)
    requires forall gx, g :: minGx <= gx <= maxGx && gy <= g <= maxGy ==> (gx, g) !in cells
    ensures ResolveRows(b, cells, minGx, maxGx, gy, maxGy, w, h) == b
    decreases maxGy - gy + 1
  {
    if gy <= maxGy {
      ResolveRowEmpty(b, cells, minGx, maxGx, gy, w, h);
      ResolveRowsEmpty(b, cells, minGx, maxGx, gy + 1, maxGy, w, h);
    }
  }

  /** With no block in the cells the hitbox spans, the pass only clears the ground flag. */
  lemma CollideInOpenAir(b: Body, cells: map<Cell, Material>, w: real, h: real)
    requires var hb := Hitbox(b, w, h);
             forall gx, gy :: (GridOf(hb.left) <= gx <= GridOf(hb.right) &&
                               GridOf(hb.top) <= gy <= GridOf(hb.bottom)) ==> (gx, gy) !in cells
    ensures Collide(b, cells, w, h) == b.(onGround := false)
  {
    var start := b.(onGround := false);
    var hb := Hitbox(start, w, h);
    ResolveRowsEmpty(start, cells, GridOf(hb.left), GridOf(hb.right), GridOf(hb.top), GridOf(hb.bottom), w, h);
  }

  /**
   * The pass does not always separate the hitbox from the blocks: a 50x50
   * body standing still whose hitbox overlaps a block by 10 on both axes
   * takes the horizontal branch, which needs horizontal motion, so nothing
   * moves and the overlap stays.
   */
  lemma CollideCanLeaveOverlap()
    ensures var b := Body(-45.0, -51.0, 0.0, 0.0, false, false);
            var cells := map[(0, 0) := Grass];
            var r := Collide(b, cells, 50.0, 50.0);
            r == b && Overlaps(Hitbox(r, 50.0, 50.0), BlockBox(0, 0))
  {
    var b := Body(-45.0, -51.0, 0.0, 0.0, false, false);
    var cells := map[(0, 0) := Grass];
    var hb := Hitbox(b, 50.0, 50.0);
    assert GridOf(hb.left) == -1 && GridOf(hb.right) == 0;
    assert GridOf(hb.top) == -2 && GridOf(hb.bottom) == 0;
    assert ResolveCell(b, cells, 0, 0, 50.0, 50.0) == b;
    ResolveRowsEmpty(b, cells, -1, 0, -2, -1, 50.0, 50.0);
    assert ResolveRow(b, cells, -1, 0, 0, 50.0, 50.0) == b by {
      assert ResolveCell(b, cells, -1, 0, 50.0, 50.0) == b;
      ResolveRowEmpty(b, cells, 1, 0, 0, 50.0, 50.0);
    }
  }

  // ---------------------------------------------------------------------------
  // Bomb charge, throw and cooldown
  // ---------------------------------------------------------------------------

  /** The bomb state of a player: charging flag, frames held, cooldown frames left. */
  datatype Charger = Charger(charging: bool, chargeTime: int, cooldown: int)

  /** What a frame's bomb handling does besides updating the charger. */
  datatype BombAction = StartCharge | Charge | Throw | ClearPreview | NoAction

  /**
   * One frame of the bomb key. Pressing it off cooldown starts a charge;
   * holding it counts up to 90 frames and refreshes the preview; releasing
   * it throws, resets the charge and starts the 30-frame cooldown. Without a
   * charge in progress the preview is cleared. The cooldown counts down only
   * while not charging, on the throw frame too.
   */
  function ChargeStep(c: Charger, hasBombKey: bool, pressed: bool): (Charger, BombAction)
  {
    var (c1, act) := BombKeyStep(c, hasBombKey, pressed);
    (CoolDown(c1), act)
  }

  /** The key handling alone, before the cooldown count-down. */
  function BombKeyStep(c: Charger, hasBombKey: bool, pressed: bool): (Charger, BombAction)
  {
    if hasBombKey then
      if pressed && c.cooldown <= 0 && !c.charging then (c.(charging := true, chargeTime := 0), StartCharge)
      else if pressed && c.charging then
        (c.(chargeTime := if c.chargeTime + 1 <= MaxBombChargeTime then c.chargeTime + 1 else MaxBombChargeTime), Charge)
      else if !pressed && c.charging then (Charger(false, 0, BombCooldown), Throw)
      else (c, ClearPreview)
    else if !c.charging then (c, ClearPreview)
    else (c, NoAction)
  }

  function CoolDown(c: Charger): Charger
  {
    if c.cooldown > 0 && !c.charging then c.(cooldown := c.cooldown - 1) else c
  }

  /** The charge stays within 0..90, the cooldown within 0..30, and no charge runs during a cooldown. */
  ghost predicate ChargerOk(c: Charger)
  {
    0 <= c.chargeTime <= MaxBombChargeTime && 0 <= c.cooldown <= BombCooldown &&
    (c.charging ==> c.cooldown == 0)
  }

  lemma ChargeStepKeepsBounds(c: Charger, hasBombKey: bool, pressed: bool)
    requires ChargerOk(c)
    ensures ChargerOk(ChargeStep(c, hasBombKey, pressed).0)
  {
  }

  /**
   * A throw happens exactly on releasing the key during a charge, and leaves
   * no charge and a cooldown of 29: set to 30, then counted down once in the
   * same frame.
   */
  lemma ThrowOnRelease(c: Charger, hasBombKey: bool, pressed: bool)
    ensures var (r, act) := ChargeStep(c, hasBombKey, pressed);
            (act == Throw <==> hasBombKey && !pressed && c.charging) &&
            (act == Throw ==> r == Charger(false, 0, BombCooldown - 1))
  {
  }

  /** A charge can only start once the cooldown is over, and starts from zero. */
  lemma ChargeStartsOffCooldown(c: Charger, hasBombKey: bool, pressed: bool)
    ensures var (r, act) := ChargeStep(c, hasBombKey, pressed);
            (act == StartCharge <==> hasBombKey && pressed && c.cooldown <= 0 && !c.charging) &&
            (act == StartCharge ==> r.charging && r.chargeTime == 0)
  {
  }

  /** The charge counter while the key is held, from a fresh charge: min(n, 90) after n frames. */
  function HoldFor(c: Charger, n: nat): Charger
    decreases n
  {
    if n == 0 then c else HoldFor(ChargeStep(c, true, true).0, n - 1)
  }

  lemma {:induction false} HoldingSaturates(c: Charger, n: nat)
    requires c.charging && 0 <= c.chargeTime <= MaxBombChargeTime && c.cooldown == 0
    ensures HoldFor(c, n).charging && HoldFor(c, n).cooldown == 0
    ensures HoldFor(c, n).chargeTime ==
              if c.chargeTime + n <= MaxBombChargeTime then c.chargeTime + n else MaxBombChargeTime
    decreases n
  {
    if n > 0 {
      HoldingSaturates(ChargeStep(c, true, true).0, n - 1);
    }
  }

  // ---------------------------------------------------------------------------
  // Throw strength and trajectory preview
  // ---------------------------------------------------------------------------

  /** `lerp(4, 12, chargeTime / 90)` */
  function ThrowStrength(chargeTime: int): real
  {
    Lerp(MinBombThrowStrength, MaxBombThrowStrength, chargeTime as real / MaxBombChargeTime as real)
  }

  /** A charge within 0..90 frames throws with a strength between 4 and 12, rising with the charge. */
  lemma ThrowStrengthInRange(chargeTime: int)
    requires 0 <= chargeTime <= MaxBombChargeTime
    ensures MinBombThrowStrength <= ThrowStrength(chargeTime) <= MaxBombThrowStrength
    ensures chargeTime == 0 ==> ThrowStrength(chargeTime) == MinBombThrowStrength
    ensures chargeTime == MaxBombChargeTime ==> ThrowStrength(chargeTime) == MaxBombThrowStrength
  {
    LerpBetween(MinBombThrowStrength, MaxBombThrowStrength, chargeTime as real / MaxBombChargeTime as real);
  }

  /** The throw point: the middle of the body, a quarter of the way down. */
  function ThrowPoint(b: Body, w: real, h: real): Point
  {
    Point(b.x + w / 2.0, b.y + h / 4.0)
  }

  function ThrowFlight(b: Body, w: real, h: real, facing: Facing, chargeTime: int): Flight
  {
    var p := ThrowPoint(b, w, h);
    Launch(p.x, p.y, facing, ThrowStrength(chargeTime))
  }

  function Pos(f: Flight): Point
  {
    Point(f.x, f.y)
  }

  /** The points kept at step `i` of the preview: the position on every third step. */
  function KeptAt(f: Flight, i: int): seq<Point>
  {
    if i % TrajectoryTimeStep == 0 then [Pos(f)] else []
  }

  /**
   * The preview from simulation step `i` of 60: the position is kept on
   * every third step, then one frame of bomb flight is taken, and the
   * simulation stops once it falls below `floorY`.
   */
  function TrajectoryFrom(f: Flight, i: int, floorY: real): seq<Point>
    decreases TrajectoryMaxSteps - i
  {
    if i >= TrajectoryMaxSteps then []
    else
      var kept := KeptAt(f, i);
      var g := Fly(f);
      if g.y > floorY then kept else kept + TrajectoryFrom(g, i + 1, floorY)
  }

  lemma {:induction false} TrajectoryFromStep(f: Flight, i: int, floorY: real)
    requires 0 <= i < TrajectoryMaxSteps
    ensures var kept := KeptAt(f, i);
            TrajectoryFrom(f, i, floorY) ==
              if Fly(f).y > floorY then kept else kept + TrajectoryFrom(Fly(f), i + 1, floorY)
  {
  }

  /** At most one point for each multiple of 3 in i..59. */
  lemma {:induction false} TrajectoryFromLength(f: Flight, i: int, floorY: real)
    requires 0 <= i <= TrajectoryMaxSteps
    ensures |TrajectoryFrom(f, i, floorY)| <= 20 - (i + 2) / 3
    ensures i < TrajectoryMaxSteps && i % TrajectoryTimeStep == 0 ==> |TrajectoryFrom(f, i, floorY)| >= 1
    decreases TrajectoryMaxSteps - i
  {
    if i < TrajectoryMaxSteps && Fly(f).y <= floorY {
      TrajectoryFromLength(Fly(f), i + 1, floorY);
    }
  }

  /** The preview has 1 to 20 points, the first being the throw point itself. */
  lemma TrajectoryShape(f: Flight, floorY: real)
    ensures 1 <= |TrajectoryFrom(f, 0, floorY)| <= 20
    ensures TrajectoryFrom(f, 0, floorY)[0] == Pos(f)
  {
    TrajectoryFromLength(f, 0, floorY);
  }

  /** Steps to the next kept position from step `i`. */
  function ToNextKept(i: int): int
  {
    (TrajectoryTimeStep - i % TrajectoryTimeStep) % TrajectoryTimeStep
  }

  /** Moving one step on either skips the kept point at `i` or gets one step closer to the next. */
  lemma NextKeptStep(i: int, k: int, k': int, n: int)
    requires 0 <= i && 0 <= k
    requires !(i % TrajectoryTimeStep == 0 && k == 0)
    requires k' == if i % TrajectoryTimeStep == 0 then k - 1 else k
    requires n == ToNextKept(i) + TrajectoryTimeStep * k
    ensures n > 0 && 0 <= k' && n - 1 == ToNextKept(i + 1) + TrajectoryTimeStep * k'
  {
  }

  lemma {:induction false} TrajectoryFromOnFlight(f: Flight, i: int, floorY: real, k: int, n: nat)
    requires 0 <= i <= TrajectoryMaxSteps
    requires 0 <= k < |TrajectoryFrom(f, i, floorY)|
    requires n == ToNextKept(i) + TrajectoryTimeStep * k
    ensures TrajectoryFrom(f, i, floorY)[k] == Pos(FlyN(f, n))
    decreases TrajectoryMaxSteps - i
  {
    var kept := KeptAt(f, i);
    var g := Fly(f);
    TrajectoryFromStep(f, i, floorY);
    if i % TrajectoryTimeStep == 0 && k == 0 {
      assert n == 0;
    } else {
      assert g.y <= floorY;
      var rest := TrajectoryFrom(g, i + 1, floorY);
      assert TrajectoryFrom(f, i, floorY) == kept + rest;
      var k' := if i % TrajectoryTimeStep == 0 then k - 1 else k;
      NextKeptStep(i, k, k', n);
      assert FlyN(f, n) == FlyN(g, n - 1);
      assert TrajectoryFrom(f, i, floorY)[k] == rest[k'];
      TrajectoryFromOnFlight(g, i + 1, floorY, k', n - 1);
    }
  }

  /**
   * The preview shows where a bomb thrown now would be: its k-th point is
   * the bomb's position after 3k frames of free flight from the same launch.
   */
  lemma TrajectoryOnFlight(f: Flight, floorY: real, k: int)
    requires 0 <= k < |TrajectoryFrom(f, 0, floorY)|
    ensures TrajectoryFrom(f, 0, floorY)[k] == Pos(FlyN(f, TrajectoryTimeStep * k))
  {
    TrajectoryFromOnFlight(f, 0, floorY, k, TrajectoryTimeStep * k);
  }

  /** Starting above the floor, no preview point lies below it. */
  lemma {:induction false} TrajectoryAboveFloor(f: Flight, i: int, floorY: real)
    requires f.y <= floorY
    ensures forall p :: p in TrajectoryFrom(f, i, floorY) ==> p.y <= floorY
    decreases TrajectoryMaxSteps - i
  {
    if i < TrajectoryMaxSteps && Fly(f).y <= floorY {
      TrajectoryAboveFloor(Fly(f), i + 1, floorY);
    }
  }

  /** One step of the preview loop keeps its invariant while the bomb stays above `floorY`. */
  lemma {:induction false} SimulationContinues(shown: seq<Point>, f: Flight, i: int, floorY: real, full: seq<Point>)
    requires 0 <= i < TrajectoryMaxSteps
    requires shown + TrajectoryFrom(f, i, floorY) == full
    requires Fly(f).y <= floorY
    ensures (shown + KeptAt(f, i)) + TrajectoryFrom(Fly(f), i + 1, floorY) == full
  {
    var rest := TrajectoryFrom(Fly(f), i + 1, floorY);
    assert TrajectoryFrom(f, i, floorY) == KeptAt(f, i) + rest;
    assert (shown + KeptAt(f, i)) + rest == shown + (KeptAt(f, i) + rest);
  }

  /** The step on which the bomb falls below `floorY` completes the preview. */
  lemma {:induction false} SimulationLands(shown: seq<Point>, f: Flight, i: int, floorY: real, full: seq<Point>)
    requires 0 <= i < TrajectoryMaxSteps
    requires shown + TrajectoryFrom(f, i, floorY) == full
    requires Fly(f).y > floorY
    ensures shown + KeptAt(f, i) == full
  {
    assert TrajectoryFrom(f, i, floorY) == KeptAt(f, i);
  }

  /**
   * One step of the preview simulation: keep the position on every third
   * step, then one frame of bomb flight; `landed` once below `floorY`.
   */
  method SimulationFrame(points: seq<Point>, simX: real, simY: real, simVX: real, simVY: real,
                         i: int, floorY: real, ghost full: seq<Point>)
    returns (points': seq<Point>, simX': real, simY': real, simVY': real, landed: bool)
    requires 0 <= i < TrajectoryMaxSteps
    requires points + TrajectoryFrom(Flight(simX, simY, simVX, simVY), i, floorY) == full
    ensures landed ==> points' == full
    ensures !landed ==> points' + TrajectoryFrom(Flight(simX', simY', simVX, simVY'), i + 1, floorY) == full
  {
    ghost var f := Flight(simX, simY, simVX, simVY);
    points' := points;
    if i % TrajectoryTimeStep == 0 {
      points' := points' + [Point(simX, simY)];
    }
    assert points' == points + KeptAt(f, i);
    simVY' := simVY + BombGravity;
    simX' := simX + simVX;
    simY' := simY + simVY';
    assert Flight(simX', simY', simVX, simVY') == Fly(f);
    landed := simY' > floorY;
    if landed {
      SimulationLands(points, f, i, floorY, full);
    } else {
      SimulationContinues(points, f, i, floorY, full);
    }
  }

  /**
   * The simulation loop of the preview: 60 steps of bomb flight from the
   * launch, keeping every third position, stopping once below `floorY`.
   */
  method SimulateTrajectory(simX0: real, simY0: real, simVX: real, simVY0: real, floorY: real)
    returns (points: seq<Point>)
    ensures points == TrajectoryFrom(Flight(simX0, simY0, simVX, simVY0), 0, floorY)
  {
    var simX, simY, simVY := simX0, simY0, simVY0;
    points := [];
    ghost var full := TrajectoryFrom(Flight(simX0, simY0, simVX, simVY0), 0, floorY);
    var i := 0;
    while i < TrajectoryMaxSteps
      invariant 0 <= i <= TrajectoryMaxSteps
      invariant points + TrajectoryFrom(Flight(simX, simY, simVX, simVY), i, floorY) == full
    {
      var landed;
      points, simX, simY, simVY, landed := SimulationFrame(points, simX, simY, simVX, simVY, i, floorY, full);
      if landed {
        return;
      }
      i := i + 1;
    }
  }

  // ---------------------------------------------------------------------------
  // Bomb bookkeeping
  // ---------------------------------------------------------------------------

  /** No bomb listed twice. */
  ghost predicate Distinct(bs: seq<Bomb>)
  {
    forall i, j :: 0 <= i < j < |bs| ==> bs[i] != bs[j]
  }

  /** The active bombs, in order. */
  ghost function ActiveOf(bs: seq<Bomb>): (r: seq<Bomb>)
    reads bs
    ensures |r| <= |bs|
    ensures forall b :: b in r ==> b in bs && b.active
    ensures forall b :: b in bs && b.active ==> b in r
    ensures Distinct(bs) ==> Distinct(r)
  {
    if |bs| == 0 then []
    else
      var rest := ActiveOf(bs[1..]);
      assert Distinct(bs) ==> bs[0] !in bs[1..];
      if bs[0].active then [bs[0]] + rest else rest
  }

  lemma ActiveOfCons(bs: seq<Bomb>, i: int)
    requires 0 <= i < |bs|
    ensures ActiveOf(bs[i..]) == (if bs[i].active then [bs[i]] else []) + ActiveOf(bs[i + 1..])
  {
    assert bs[i..][1..] == bs[i + 1..];
  }

  /** The bombs of a list whose flag is set, in order. */
  ghost function Survivors(bs: seq<Bomb>, alive: seq<bool>): (r: seq<Bomb>)
    requires |alive| == |bs|
  {
    if |bs| == 0 then [] else (if alive[0] then [bs[0]] else []) + Survivors(bs[1..], alive[1..])
  }

  lemma SurvivorsCons(bs: seq<Bomb>, alive: seq<bool>, i: int)
    requires |alive| == |bs| && 0 <= i < |bs|
    ensures Survivors(bs[i..], alive[i..]) ==
              (if alive[i] then [bs[i]] else []) + Survivors(bs[i + 1..], alive[i + 1..])
  {
    assert bs[i..][1..] == bs[i + 1..];
    assert alive[i..][1..] == alive[i + 1..];
  }

  /** The active bombs are the survivors under the active flags. */
  lemma {:induction false} ActiveOfSurvivors(bs: seq<Bomb>)
    ensures ActiveOf(bs) == Survivors(bs, ActiveFlags(bs))
    decreases |bs|
  {
    if |bs| > 0 {
      ActiveOfSurvivors(bs[1..]);
      assert ActiveFlags(bs)[1..] == ActiveFlags(bs[1..]);
    }
  }

  ghost function ExplosionsOf(bs: seq<Bomb>): set<Explosion?>
    reads bs
  {
    set b | b in bs :: b.explosion
  }

  /** A bomb with no explosion adds none to a list's. */
  lemma ExplosionsOfAppend(bs: seq<Bomb>, nb: Bomb)
    requires nb.explosion == null
    ensures ExplosionsOf(bs + [nb]) <= ExplosionsOf(bs) + {null}
  {
    forall e | e in ExplosionsOf(bs + [nb]) ensures e in ExplosionsOf(bs) + {null} {
      var b :| b in bs + [nb] && b.explosion == e;
      if b != nb {
        assert b in bs;
      }
    }
  }

  /** Valid bombs, none listed twice, no two sharing an explosion. */
  ghost predicate BombsSound(bs: seq<Bomb>)
    reads bs, ExplosionsOf(bs)
  {
    (forall b :: b in bs ==> b.Valid()) &&
    Distinct(bs) &&
    (forall b, c :: b in bs && c in bs && b != c && b.explosion != null ==> b.explosion != c.explosion)
  }

  /** A freshly thrown bomb can join a sound list. */
  lemma SoundAppend(bs: seq<Bomb>, nb: Bomb)
    requires BombsSound(bs)
    requires nb.Valid() && nb.explosion == null && nb !in bs
    ensures BombsSound(bs + [nb])
  {
    var r := bs + [nb];
    forall i, j | 0 <= i < j < |r| ensures r[i] != r[j] {
      if j == |bs| { assert r[i] in bs; }
    }
  }

  /** Different bombs of the list hold different explosions. */
  ghost predicate ExplosionsApart(bs: seq<Bomb>)
    reads bs
  {
    forall i, j :: 0 <= i < |bs| && 0 <= j < |bs| && i != j && bs[i].explosion != null ==>
      bs[i].explosion != bs[j].explosion
  }

  /** The sound-list facts, by index. */
  lemma SoundByIndex(bs: seq<Bomb>)
    requires BombsSound(bs)
    ensures forall k :: 0 <= k < |bs| ==> bs[k].Valid()
    ensures ExplosionsApart(bs)
  {
    forall i, j | 0 <= i < |bs| && 0 <= j < |bs| && i != j && bs[i].explosion != null
      ensures bs[i].explosion != bs[j].explosion
    {
      assert bs[i] in bs && bs[j] in bs;
    }
  }

  /** A sub-list, without repeats, of a list whose bombs are valid and apart, is sound. */
  lemma SoundSublist(bs: seq<Bomb>, r: seq<Bomb>)
    requires forall k :: 0 <= k < |bs| ==> bs[k].Valid()
    requires ExplosionsApart(bs) && Distinct(bs)
    requires forall b :: b in r ==> b in bs
    requires Distinct(r)
    ensures BombsSound(r)
  {
    forall b, c | b in r && c in r && b != c && b.explosion != null
      ensures b.explosion != c.explosion
    {
      var i :| 0 <= i < |bs| && bs[i] == b;
      var j :| 0 <= j < |bs| && bs[j] == c;
    }
    forall b | b in r ensures b.Valid() {
      var i :| 0 <= i < |bs| && bs[i] == b;
    }
  }

  /** The frames each bomb of a list has left. */
  ghost function FramesOf(bs: seq<Bomb>): (r: seq<int>)
    reads bs, set b | b in bs :: b.explosion
    requires forall k :: 0 <= k < |bs| ==> bs[k].Valid()
    ensures |r| == |bs| && forall k :: 0 <= k < |bs| ==> r[k] == FramesLeft(bs[k])
  {
    if |bs| == 0 then [] else [FramesLeft(bs[0])] + FramesOf(bs[1..])
  }

  /** Which bombs of a list are active. */
  ghost function ActiveFlags(bs: seq<Bomb>): (r: seq<bool>)
    reads bs
    ensures |r| == |bs| && forall k :: 0 <= k < |bs| ==> r[k] == bs[k].active
  {
    if |bs| == 0 then [] else [bs[0].active] + ActiveFlags(bs[1..])
  }

  /** The fields of each bomb of a list. */
  ghost function StatesOf(bs: seq<Bomb>): (r: seq<BombState>)
    reads bs, set b | b in bs :: b.explosion
    ensures |r| == |bs|
  {
    if |bs| == 0 then [] else [bs[0].State()] + StatesOf(bs[1..])
  }

  /** The particle deaths each bomb of a list is told about this frame. */
  ghost function DeathsOf(bs: seq<Bomb>, deaths: Explosion -> nat): (r: seq<nat>)
    reads bs
    ensures |r| == |bs|
  {
    if |bs| == 0 then [] else [Deaths(bs[0].explosion, deaths)] + DeathsOf(bs[1..], deaths)
  }

  /** `StatesOf` and `DeathsOf`, bomb by bomb. */
  lemma {:induction false} StatesOfIndices(bs: seq<Bomb>, deaths: Explosion -> nat)
    ensures forall k :: 0 <= k < |bs| ==>
              StatesOf(bs)[k] == bs[k].State() && DeathsOf(bs, deaths)[k] == Deaths(bs[k].explosion, deaths)
  {
    if |bs| > 0 {
      StatesOfIndices(bs[1..], deaths);
    }
  }

  /**
   * Each bomb of `all` holds the turn (`BombFrame`) of the fields in `states`
   * with the particle deaths in `ds`.
   */
  ghost predicate Stepped(all: seq<Bomb>, states: seq<BombState>, ds: seq<nat>, cells: map<Cell, Material>)
    reads all, set b | b in all :: b.explosion
  {
    |states| == |all| && |ds| == |all| &&
    forall k :: 0 <= k < |all| ==> all[k].State() == BombFrame(states[k], cells, ds[k])
  }

  /** A bomb took its turn: one frame closer to its end, and still gone if it was gone. */
  ghost predicate Advanced(b: Bomb, framesBefore: int, activeBefore: bool)
    requires b.Valid()
    reads b, b.explosion
  {
    (activeBefore ==> FramesLeft(b) < framesBefore) && (!activeBefore ==> !b.active)
  }

  /**
   * What the bomb loop leaves of the list `all`, given the frames left and
   * the activity of each bomb before it: the survivors `kept` are its active
   * bombs in order, and every bomb of `all` is valid and advanced.
   */
  ghost predicate Turned(all: seq<Bomb>, kept: seq<Bomb>, frames: seq<int>, wasActive: seq<bool>)
    reads all, set b | b in all :: b.explosion
  {
    |frames| == |all| && |wasActive| == |all| && kept == ActiveOf(all) &&
    (forall k :: 0 <= k < |all| ==> all[k].Valid() && Advanced(all[k], frames[k], wasActive[k]))
  }

  /**
   * One bomb's turn in the bomb loop: its frame, then its collision pass.
   * The other bombs of the list and their explosions are left alone.
   */
  method StepBomb(bs: seq<Bomb>, i: int, ground: GroundMap, deaths: Explosion -> nat)
    requires 0 <= i < |bs|
    requires Distinct(bs) && ExplosionsApart(bs)
    requires forall k :: 0 <= k < |bs| ==> bs[k].Valid()
    modifies bs[i], bs[i].explosion
    ensures forall k :: 0 <= k < |bs| ==> bs[k].Valid()
    ensures ExplosionsApart(bs)
    ensures forall k :: 0 <= k < |bs| && k != i ==>
              bs[k].explosion == old(bs[k].explosion) && bs[k].active == old(bs[k].active) &&
              FramesLeft(bs[k]) == old(FramesLeft(bs[k])) && bs[k].State() == old(bs[k].State())
    ensures Advanced(bs[i], old(FramesLeft(bs[i])), old(bs[i].active))
    ensures bs[i].State() == BombFrame(old(bs[i].State()), ground.cells, Deaths(old(bs[i].explosion), deaths))
  {
    bs[i].Update(deaths);
    bs[i].CollideWithMap(ground);
  }

  /**
   * Where the bomb loop stands with bombs i+1.. done: `kept` is the
   * unvisited prefix followed by the visited bombs still active, every bomb
   * is valid, each visited bomb has advanced from the frames and activity
   * recorded before the loop and holds the turn of the fields and deaths
   * recorded then, and each unvisited bomb still has them and still holds an
   * explosion it held before the loop.
   */
  ghost predicate LoopState(all: seq<Bomb>, i: int, kept: seq<Bomb>, alive: seq<bool>,
                            frames: seq<int>, wasActive: seq<bool>, explosions: set<Explosion?>,
                            states: seq<BombState>, ds: seq<nat>, cells: map<Cell, Material>,
                            deaths: Explosion -> nat)
    reads all, set b | b in all :: b.explosion
  {
    -1 <= i < |all| && |alive| == |all| && |frames| == |all| && |wasActive| == |all| &&
    |states| == |all| && |ds| == |all| &&
    kept == all[..i + 1] + Survivors(all[i + 1..], alive[i + 1..]) &&
    (forall k :: 0 <= k < |all| ==> all[k].Valid()) &&
    ExplosionsApart(all) &&
    (forall k :: 0 <= k <= i ==>
       frames[k] == FramesLeft(all[k]) && wasActive[k] == all[k].active && all[k].explosion in explosions &&
       states[k] == all[k].State() && ds[k] == Deaths(all[k].explosion, deaths)) &&
    (forall k :: i < k < |all| ==>
       alive[k] == all[k].active && Advanced(all[k], frames[k], wasActive[k]) &&
       all[k].State() == BombFrame(states[k], cells, ds[k]))
  }

  /**
   * One turn of the bomb loop: bomb i takes its frame and its collision
   * pass, and is spliced out of `kept` if it is no longer active.
   */
  method VisitBomb(all: seq<Bomb>, i: int, kept: seq<Bomb>, ghost alive: seq<bool>,
                   ghost frames: seq<int>, ghost wasActive: seq<bool>, ghost explosions: set<Explosion?>,
                   ghost states: seq<BombState>, ghost ds: seq<nat>,
                   ground: GroundMap, deaths: Explosion -> nat)
    returns (kept': seq<Bomb>, ghost alive': seq<bool>)
    requires 0 <= i && LoopState(all, i, kept, alive, frames, wasActive, explosions, states, ds, ground.cells, deaths)
    requires Distinct(all)
    modifies all[i], all[i].explosion
    ensures LoopState(all, i - 1, kept', alive', frames, wasActive, explosions, states, ds, ground.cells, deaths)
  {
    var bomb := kept[i];
    assert bomb == all[i];
    StepBomb(all, i, ground, deaths);
    alive' := alive[i := bomb.active];
    SpliceKept(all, i, kept, alive, bomb.active);
    if !bomb.active {
      kept' := kept[..i] + kept[i + 1..];
    } else {
      kept' := kept;
    }
  }

  /** Splicing bomb i out of `kept` when it is no longer active keeps `kept` the unvisited prefix and the survivors. */
  lemma SpliceKept(all: seq<Bomb>, i: int, kept: seq<Bomb>, alive: seq<bool>, active: bool)
    requires 0 <= i < |all| && |alive| == |all|
    requires kept == all[..i + 1] + Survivors(all[i + 1..], alive[i + 1..])
    ensures kept[i] == all[i]
    ensures (if active then kept else kept[..i] + kept[i + 1..]) ==
            all[..i] + Survivors(all[i..], alive[i := active][i..])
  {
    var alive' := alive[i := active];
    var tail := Survivors(all[i + 1..], alive[i + 1..]);
    assert kept[..i] == all[..i] && kept[i + 1..] == tail;
    assert alive'[i + 1..] == alive[i + 1..];
    SurvivorsCons(all, alive', i);
    if active {
      assert all[..i + 1] == all[..i] + [all[i]];
      assert kept == all[..i] + ([all[i]] + tail);
    }
  }

  /** Before the loop no bomb is visited. */
  lemma LoopStart(all: seq<Bomb>, frames: seq<int>, wasActive: seq<bool>, explosions: set<Explosion?>,
                  states: seq<BombState>, ds: seq<nat>, cells: map<Cell, Material>, deaths: Explosion -> nat)
    requires ExplosionsApart(all)
    requires forall k :: 0 <= k < |all| ==> all[k].Valid()
    requires frames == FramesOf(all) && wasActive == ActiveFlags(all) && explosions == ExplosionsOf(all)
    requires states == StatesOf(all) && ds == DeathsOf(all, deaths)
    ensures LoopState(all, |all| - 1, all, wasActive, frames, wasActive, explosions, states, ds, cells, deaths)
    ensures forall k :: 0 <= k < |all| ==> states[k] == all[k].State() && ds[k] == Deaths(all[k].explosion, deaths)
  {
    StatesOfIndices(all, deaths);
    var n := |all|;
    assert all[..n] == all && all[n..] == [] && wasActive[n..] == [];
    assert all == all[..n] + Survivors(all[n..], wasActive[n..]);
    assert forall k :: 0 <= k < |all| ==> all[k] in all;
  }

  /** After the last turn, `kept` holds the active bombs, each advanced and holding its turn. */
  lemma LoopDone(all: seq<Bomb>, kept: seq<Bomb>, alive: seq<bool>, frames: seq<int>, wasActive: seq<bool>,
                 explosions: set<Explosion?>, states: seq<BombState>, ds: seq<nat>, cells: map<Cell, Material>,
                 deaths: Explosion -> nat)
    requires Distinct(all)
    requires LoopState(all, -1, kept, alive, frames, wasActive, explosions, states, ds, cells, deaths)
    ensures kept == ActiveOf(all)
    ensures BombsSound(kept)
    ensures forall b :: b in kept ==> b.active
    ensures Turned(all, kept, frames, wasActive) && Stepped(all, states, ds, cells)
  {
    assert ActiveFlags(all) == alive;
    ActiveOfSurvivors(all);
    assert all[0..] == all;
    SoundSublist(all, kept);
  }

  /**
   * The bomb loop, last bomb first: each bomb takes its frame and its
   * collision pass, and is removed from the list once inactive. The
   * survivors are the active bombs in their original order.
   */
  method StepBombs(all: seq<Bomb>, ground: GroundMap, deaths: Explosion -> nat) returns (kept: seq<Bomb>)
    requires Distinct(all) && ExplosionsApart(all)
    requires forall k :: 0 <= k < |all| ==> all[k].Valid()
    modifies all, ExplosionsOf(all)
    ensures Turned(all, kept, old(FramesOf(all)), old(ActiveFlags(all)))
    ensures forall k :: 0 <= k < |all| ==>
              all[k].State() == BombFrame(old(all[k].State()), ground.cells, Deaths(old(all[k].explosion), deaths))
    ensures BombsSound(kept)
    ensures forall b :: b in kept ==> b.active
  {
    ghost var frames := FramesOf(all);
    ghost var wasActive := ActiveFlags(all);
    ghost var explosions := ExplosionsOf(all);
    ghost var states := StatesOf(all);
    ghost var ds := DeathsOf(all, deaths);
    LoopStart(all, frames, wasActive, explosions, states, ds, ground.cells, deaths);
    ghost var alive;
    kept, alive := RunBombLoop(all, frames, wasActive, explosions, states, ds, ground, deaths);
    LoopDone(all, kept, alive, frames, wasActive, explosions, states, ds, ground.cells, deaths);
  }

  /** The loop itself, from the last bomb down to the first. */
  method RunBombLoop(all: seq<Bomb>, ghost frames: seq<int>, ghost wasActive: seq<bool>,
                     ghost explosions: set<Explosion?>, ghost states: seq<BombState>, ghost ds: seq<nat>,
                     ground: GroundMap, deaths: Explosion -> nat)
    returns (kept: seq<Bomb>, ghost alive: seq<bool>)
    requires Distinct(all)
    requires LoopState(all, |all| - 1, all, wasActive, frames, wasActive, explosions, states, ds, ground.cells, deaths)
    modifies all, explosions
    ensures LoopState(all, -1, kept, alive, frames, wasActive, explosions, states, ds, ground.cells, deaths)
  {
    alive := wasActive;
    kept := all;
    var i := |all| - 1;
    while i >= 0
      invariant LoopState(all, i, kept, alive, frames, wasActive, explosions, states, ds, ground.cells, deaths)
    {
      kept, alive := VisitBomb(all, i, kept, alive, frames, wasActive, explosions, states, ds, ground, deaths);
      i := i - 1;
    }
  }

  /**
   * What one frame's bomb-key handling leaves of the trajectory preview, for
   * the action taken: a throw and a release outside a charge clear it, a
   * charge step recomputes it from the throw point, and the rest keep it.
   */
  predicate PreviewOutcome(act: BombAction, previewBefore: seq<Point>, preview: seq<Point>,
                           previewFlight: Flight, floorY: real)
  {
    (act == Throw || act == ClearPreview ==> preview == []) &&
    (act == Charge ==> preview == TrajectoryFrom(previewFlight, 0, floorY)) &&
    (act == StartCharge || act == NoAction ==> preview == previewBefore)
  }

  /**
   * What one frame's bomb-key handling leaves of the bomb list, for the
   * action taken: a throw appends one valid bomb with no explosion, freshly
   * launched on the throw flight, and every other action keeps the list.
   */
  ghost predicate KeyOutcome(act: BombAction, before: seq<Bomb>, after: seq<Bomb>, throwFlight: Flight)
    reads after
  {
    (act == Throw ==>
       |after| == |before| + 1 && after[..|before|] == before &&
       after[|before|].explosion == null && after[|before|].Valid() &&
       after[|before|].Motion() == throwFlight &&
       after[|before|].State() == LaunchState(throwFlight)) &&
    (act != Throw ==> after == before)
  }

  class Player {
    var x: real
    var y: real
    const baseWidth: real
    const baseHeight: real
    var vx: real
    var vy: real
    var isOnGround: bool
    var isJumping: bool
    var facingDirection: Facing
    var bombs: seq<Bomb>
    var bombCooldown: int
    var isChargingBomb: bool
    var bombChargeTime: int
    var trajectoryPoints: seq<Point>

    ghost predicate Valid()
      reads this, bombs, ExplosionsOf(bombs)
    {
      ChargerOk(ChargerState()) && BombsSound(bombs)
    }

    ghost function BodyState(): Body
      reads this
    {
      Body(x, y, vx, vy, isOnGround, isJumping)
    }

    ghost function ChargerState(): Charger
      reads this
    {
      Charger(isChargingBomb, bombChargeTime, bombCooldown)
    }

    /** A player at rest, facing right, with no bombs and nothing charged. */
    constructor (x: real, y: real, width: real, height: real)
      ensures Valid()
      ensures BodyState() == Body(x, y, 0.0, 0.0, false, false)
      ensures baseWidth == width && baseHeight == height
      ensures facingDirection == Right
      ensures bombs == [] && trajectoryPoints == []
      ensures ChargerState() == Charger(false, 0, 0)
    {
      this.x := x;
      this.y := y;
      baseWidth := width;
      baseHeight := height;
      vx := 0.0;
      vy := 0.0;
      isJumping := false;
      isOnGround := false;
      facingDirection := Right;
      bombs := [];
      bombCooldown := 0;
      isChargingBomb := false;
      bombChargeTime := 0;
      trajectoryPoints := [];
    }

    method ApplyGravity()
      modifies this
      ensures BodyState() == Fall(old(BodyState()))
      ensures facingDirection == old(facingDirection) && bombs == old(bombs)
      ensures ChargerState() == old(ChargerState()) && trajectoryPoints == old(trajectoryPoints)
    {
      if !isOnGround {
        vy := vy + Gravity;
      }
    }

    /**
     * One cell of the collision pass: the resolution against block (gx, gy)
     * if it is in the map and overlaps the hitbox, then the hitbox bounds
     * taken again from the new position.
     */
    method ResolveAgainst(ground: GroundMap, gx: int, gy: int, hbLeft: real, hbRight: real, hbTop: real, hbBottom: real)
      returns (left: real, right: real, top: real, bottom: real)
      requires Hitbox(BodyState(), baseWidth, baseHeight) == Box(hbLeft, hbRight, hbTop, hbBottom)
      modifies this
      ensures BodyState() == ResolveCell(old(BodyState()), ground.cells, gx, gy, baseWidth, baseHeight)
      ensures Hitbox(BodyState(), baseWidth, baseHeight) == Box(left, right, top, bottom)
      ensures facingDirection == old(facingDirection) && bombs == old(bombs)
      ensures ChargerState() == old(ChargerState()) && trajectoryPoints == old(trajectoryPoints)
    {
      left, right, top, bottom := hbLeft, hbRight, hbTop, hbBottom;
      if (gx, gy) in ground.cells {
        var blockLeft := gx as real * BlockSize;
        var blockRight := blockLeft + BlockSize;
        var blockTop := gy as real * BlockSize;
        var blockBottom := blockTop + BlockSize;
        if hbLeft < blockRight && hbRight > blockLeft && hbTop < blockBottom && hbBottom > blockTop {
          var overlapX := Min(hbRight - blockLeft, blockRight - hbLeft);
          var overlapY := Min(hbBottom - blockTop, blockBottom - hbTop);
          if overlapY < overlapX {
            if vy >= 0.0 && hbBottom > blockTop && hbTop < blockTop {
              y := blockTop - baseHeight - HitboxPaddingY;
              vy := 0.0;
              isOnGround := true;
              isJumping := false;
            } else if vy < 0.0 && hbTop < blockBottom && hbBottom > blockBottom {
              y := blockBottom + HitboxPaddingY;
              vy := 0.0;
            }
          } else {
            if vx > 0.0 && hbRight > blockLeft && hbLeft < blockLeft {
              x := blockLeft - baseWidth - HitboxPaddingX;
              vx := 0.0;
            } else if vx < 0.0 && hbLeft < blockRight && hbRight > blockRight {
              x := blockRight + HitboxPaddingX;
              vx := 0.0;
            }
          }
          left := x - HitboxPaddingX;
          right := x + baseWidth + HitboxPaddingX;
          top := y - HitboxPaddingY;
          bottom := y + baseHeight + HitboxPaddingY;
        }
      }
    }

    /** The collision pass over the cells the hitbox spans, rows outer and columns inner. */
    method CollideWithMap(ground: GroundMap)
      modifies this
      ensures BodyState() == Collide(old(BodyState()), ground.cells, baseWidth, baseHeight)
      ensures facingDirection == old(facingDirection) && bombs == old(bombs)
      ensures ChargerState() == old(ChargerState()) && trajectoryPoints == old(trajectoryPoints)
    {
      isOnGround := false;
      var hbLeft := x - HitboxPaddingX;
      var hbRight := x + baseWidth + HitboxPaddingX;
      var hbTop := y - HitboxPaddingY;
      var hbBottom := y + baseHeight + HitboxPaddingY;

      var minGx := GridOf(hbLeft);
      var maxGx := GridOf(hbRight);
      var minGy := GridOf(hbTop);
      var maxGy := GridOf(hbBottom);

      ghost var start := BodyState();
      var gy := minGy;
      while gy <= maxGy
        invariant ResolveRows(BodyState(), ground.cells, minGx, maxGx, gy, maxGy, baseWidth, baseHeight) ==
                  ResolveRows(start, ground.cells, minGx, maxGx, minGy, maxGy, baseWidth, baseHeight)
        invariant Hitbox(BodyState(), baseWidth, baseHeight) == Box(hbLeft, hbRight, hbTop, hbBottom)
        invariant facingDirection == old(facingDirection) && bombs == old(bombs)
        invariant ChargerState() == old(ChargerState()) && trajectoryPoints == old(trajectoryPoints)
      {
        ghost var rowStart := BodyState();
        var gx := minGx;
        while gx <= maxGx
          invariant ResolveRow(BodyState(), ground.cells, gx, maxGx, gy, baseWidth, baseHeight) ==
                    ResolveRow(rowStart, ground.cells, minGx, maxGx, gy, baseWidth, baseHeight)
          invariant Hitbox(BodyState(), baseWidth, baseHeight) == Box(hbLeft, hbRight, hbTop, hbBottom)
          invariant facingDirection == old(facingDirection) && bombs == old(bombs)
          invariant ChargerState() == old(ChargerState()) && trajectoryPoints == old(trajectoryPoints)
        {
          hbLeft, hbRight, hbTop, hbBottom := ResolveAgainst(ground, gx, gy, hbLeft, hbRight, hbTop, hbBottom);
          gx := gx + 1;
        }
        gy := gy + 1;
      }
    }

    /** The preview for the current charge, facing and position. */
    method CalculateTrajectory()
      modifies this
      ensures trajectoryPoints ==
                TrajectoryFrom(ThrowFlight(BodyState(), baseWidth, baseHeight, facingDirection, bombChargeTime),
                               0, y + baseHeight * 2.0)
      ensures BodyState() == old(BodyState()) && facingDirection == old(facingDirection)
      ensures bombs == old(bombs) && ChargerState() == old(ChargerState())
    {
      var chargeRatio := bombChargeTime as real / MaxBombChargeTime as real;
      var throwStrength := Lerp(MinBombThrowStrength, MaxBombThrowStrength, chargeRatio);
      var simX := x + baseWidth / 2.0;
      var simY := y + baseHeight / 4.0;
      var simVX := if facingDirection == Right then throwStrength else -throwStrength;
      var simVY := BombLaunchVy;
      var floorY := y + baseHeight * 2.0;
      assert Flight(simX, simY, simVX, simVY) ==
             ThrowFlight(BodyState(), baseWidth, baseHeight, facingDirection, bombChargeTime);
      trajectoryPoints := SimulateTrajectory(simX, simY, simVX, simVY, floorY);
    }

    /** A bomb leaves from the throw point with the current charge's strength; the cooldown restarts. */
    method ThrowBomb()
      modifies this
      ensures |bombs| == |old(bombs)| + 1 && bombs[..|old(bombs)|] == old(bombs)
      ensures fresh(bombs[|old(bombs)|])
      ensures var nb := bombs[|old(bombs)|];
              nb.Valid() && !nb.isExploding && nb.active && nb.timeToLive == BombFuse &&
              nb.Motion() == ThrowFlight(BodyState(), baseWidth, baseHeight, facingDirection, bombChargeTime) &&
              nb.State() == LaunchState(nb.Motion())
      ensures bombCooldown == BombCooldown
      ensures BodyState() == old(BodyState()) && facingDirection == old(facingDirection)
      ensures isChargingBomb == old(isChargingBomb) && bombChargeTime == old(bombChargeTime)
      ensures trajectoryPoints == old(trajectoryPoints)
    {
      var chargeRatio := bombChargeTime as real / MaxBombChargeTime as real;
      var throwStrength := Lerp(MinBombThrowStrength, MaxBombThrowStrength, chargeRatio);
      var bombX := x + baseWidth / 2.0;
      var bombY := y + baseHeight / 4.0;
      var bomb := new Bomb(bombX, bombY, facingDirection, throwStrength);
      bombs := bombs + [bomb];
      bombCooldown := BombCooldown;
    }

    /** Steering and the jump. */
    method SteerAndJump(keys: Keys)
      modifies this
      ensures BodyState() == Steer(old(BodyState()), keys)
      ensures facingDirection == if keys.left then Left else if keys.right then Right else old(facingDirection)
      ensures bombs == old(bombs) && ChargerState() == old(ChargerState())
      ensures trajectoryPoints == old(trajectoryPoints)
    {
      if keys.left {
        vx := vx - MoveSpeed;
        facingDirection := Left;
      } else if keys.right {
        vx := vx + MoveSpeed;
        facingDirection := Right;
      } else {
        vx := vx * Friction;
      }
      vx := Max(-MaxSpeed, Min(MaxSpeed, vx));
      if Abs(vx) < StopSpeed {
        vx := 0.0;
      }

      if keys.jump && isOnGround && !isJumping {
        vy := JumpStrength;
        isJumping := true;
        isOnGround := false;
      }
    }

    /** Pressing the key off cooldown starts a charge at zero. */
    method StartCharging()
      modifies this
      ensures ChargerState() == old(ChargerState()).(charging := true, chargeTime := 0)
      ensures BodyState() == old(BodyState()) && facingDirection == old(facingDirection)
      ensures KeyOutcome(StartCharge, old(bombs), bombs,
                         ThrowFlight(BodyState(), baseWidth, baseHeight, facingDirection, old(bombChargeTime)))
      ensures PreviewOutcome(StartCharge, old(trajectoryPoints), trajectoryPoints,
                             ThrowFlight(BodyState(), baseWidth, baseHeight, facingDirection, bombChargeTime),
                             y + baseHeight * 2.0)
    {
      isChargingBomb := true;
      bombChargeTime := 0;
    }

    /** Holding the key during a charge: one more frame of charge, capped, and a new preview. */
    method KeepCharging()
      modifies this
      ensures ChargerState() ==
                old(ChargerState()).(chargeTime := if old(bombChargeTime) + 1 <= MaxBombChargeTime
                                                   then old(bombChargeTime) + 1 else MaxBombChargeTime)
      ensures BodyState() == old(BodyState()) && facingDirection == old(facingDirection)
      ensures KeyOutcome(Charge, old(bombs), bombs,
                         ThrowFlight(BodyState(), baseWidth, baseHeight, facingDirection, old(bombChargeTime)))
      ensures PreviewOutcome(Charge, old(trajectoryPoints), trajectoryPoints,
                             ThrowFlight(BodyState(), baseWidth, baseHeight, facingDirection, bombChargeTime),
                             y + baseHeight * 2.0)
    {
      bombChargeTime := if bombChargeTime + 1 <= MaxBombChargeTime then bombChargeTime + 1 else MaxBombChargeTime;
      CalculateTrajectory();
    }

    /** Releasing the key during a charge: the throw, then the charge and preview are cleared. */
    method ReleaseBomb()
      modifies this
      ensures ChargerState() == Charger(false, 0, BombCooldown)
      ensures BodyState() == old(BodyState()) && facingDirection == old(facingDirection)
      ensures KeyOutcome(Throw, old(bombs), bombs,
                         ThrowFlight(BodyState(), baseWidth, baseHeight, facingDirection, old(bombChargeTime)))
      ensures PreviewOutcome(Throw, old(trajectoryPoints), trajectoryPoints,
                             ThrowFlight(BodyState(), baseWidth, baseHeight, facingDirection, bombChargeTime),
                             y + baseHeight * 2.0)
      ensures fresh(bombs[|old(bombs)|])
    {
      ThrowBomb();
      isChargingBomb := false;
      bombChargeTime := 0;
      trajectoryPoints := [];
    }

    /** The preview is dropped while no charge is running. */
    method ClearPreview()
      modifies this
      ensures ChargerState() == old(ChargerState())
      ensures BodyState() == old(BodyState()) && facingDirection == old(facingDirection)
      ensures KeyOutcome(BombAction.ClearPreview, old(bombs), bombs,
                         ThrowFlight(BodyState(), baseWidth, baseHeight, facingDirection, old(bombChargeTime)))
      ensures PreviewOutcome(BombAction.ClearPreview, old(trajectoryPoints), trajectoryPoints,
                             ThrowFlight(BodyState(), baseWidth, baseHeight, facingDirection, bombChargeTime),
                             y + baseHeight * 2.0)
    {
      trajectoryPoints := [];
    }

    /** The bomb key's charge / throw / preview handling. */
    method BombKeyAction(keys: Keys) returns (ghost act: BombAction)
      modifies this
      ensures act == BombKeyStep(old(ChargerState()), keys.hasBombKey, keys.bomb).1
      ensures BodyState() == old(BodyState()) && facingDirection == old(facingDirection)
      ensures ChargerState() == BombKeyStep(old(ChargerState()), keys.hasBombKey, keys.bomb).0
      ensures KeyOutcome(act, old(bombs), bombs,
                         ThrowFlight(BodyState(), baseWidth, baseHeight, facingDirection, old(bombChargeTime)))
      ensures act == Throw ==> fresh(bombs[|old(bombs)|])
      ensures PreviewOutcome(act, old(trajectoryPoints), trajectoryPoints,
                             ThrowFlight(BodyState(), baseWidth, baseHeight, facingDirection, bombChargeTime),
                             y + baseHeight * 2.0)
    {
      if keys.hasBombKey {
        if keys.bomb && bombCooldown <= 0 && !isChargingBomb {
          act := StartCharge;
          StartCharging();
        } else if keys.bomb && isChargingBomb {
          act := Charge;
          KeepCharging();
        } else if !keys.bomb && isChargingBomb {
          act := Throw;
          ReleaseBomb();
        } else {
          // no charge is running here, which is the source's last test
          act := BombAction.ClearPreview;
          ClearPreview();
        }
      } else if !isChargingBomb {
        act := BombAction.ClearPreview;
        ClearPreview();
      } else {
        act := NoAction;
      }
    }

    /** The key handling, then the cooldown counts down unless a charge is running. */
    method HandleBombKey(keys: Keys)
      modifies this
      ensures BodyState() == old(BodyState()) && facingDirection == old(facingDirection)
      ensures ChargerState() == ChargeStep(old(ChargerState()), keys.hasBombKey, keys.bomb).0
      ensures var act := ChargeStep(old(ChargerState()), keys.hasBombKey, keys.bomb).1;
              KeyOutcome(act, old(bombs), bombs,
                         ThrowFlight(BodyState(), baseWidth, baseHeight, facingDirection, old(bombChargeTime))) &&
              (act == Throw ==> fresh(bombs[|old(bombs)|]))
      ensures PreviewOutcome(ChargeStep(old(ChargerState()), keys.hasBombKey, keys.bomb).1,
                             old(trajectoryPoints), trajectoryPoints,
                             ThrowFlight(BodyState(), baseWidth, baseHeight, facingDirection, bombChargeTime),
                             y + baseHeight * 2.0)
    {
      ghost var act := BombKeyAction(keys);
      if bombCooldown > 0 && !isChargingBomb {
        bombCooldown := bombCooldown - 1;
      }
    }

    /** The keys of one frame: steering and the jump, then the bomb key. */
    method HandleInput(keys: Keys)
      modifies this
      ensures BodyState() == Steer(old(BodyState()), keys)
      ensures facingDirection == if keys.left then Left else if keys.right then Right else old(facingDirection)
      ensures ChargerState() == ChargeStep(old(ChargerState()), keys.hasBombKey, keys.bomb).0
      ensures var act := ChargeStep(old(ChargerState()), keys.hasBombKey, keys.bomb).1;
              KeyOutcome(act, old(bombs), bombs,
                         ThrowFlight(BodyState(), baseWidth, baseHeight, facingDirection, old(bombChargeTime))) &&
              (act == Throw ==> fresh(bombs[|old(bombs)|]))
      ensures PreviewOutcome(ChargeStep(old(ChargerState()), keys.hasBombKey, keys.bomb).1,
                             old(trajectoryPoints), trajectoryPoints,
                             ThrowFlight(BodyState(), baseWidth, baseHeight, facingDirection, bombChargeTime),
                             y + baseHeight * 2.0)
    {
      SteerAndJump(keys);
      HandleBombKey(keys);
    }

    /** The bomb loop over this player's bombs. */
    method UpdateBombs(ground: GroundMap, deaths: Explosion -> nat)
      requires Valid()
      modifies this, bombs, ExplosionsOf(bombs)
      ensures Valid()
      ensures Turned(old(bombs), bombs, old(FramesOf(bombs)), old(ActiveFlags(bombs)))
      ensures forall k :: 0 <= k < |old(bombs)| ==>
                old(bombs)[k].State() == BombFrame(old(bombs[k].State()), ground.cells, Deaths(old(bombs[k].explosion), deaths))
      ensures forall b :: b in bombs ==> b.active
      ensures BodyState() == old(BodyState()) && facingDirection == old(facingDirection)
      ensures ChargerState() == old(ChargerState()) && trajectoryPoints == old(trajectoryPoints)
    {
      SoundByIndex(bombs);
      ghost var frames, wasActive := FramesOf(bombs), ActiveFlags(bombs);
      ghost var all, body, charger := bombs, BodyState(), ChargerState();
      var kept := StepBombs(bombs, ground, deaths);
      assert BodyState() == body && ChargerState() == charger;
      assert Turned(all, kept, frames, wasActive) && BombsSound(kept);
      bombs := kept;
      assert BodyState() == body && ChargerState() == charger;
    }

    /** Gravity, one step of motion, then the collision pass. */
    method MoveAndCollide(ground: GroundMap)
      modifies this
      ensures BodyState() == Collide(Move(Fall(old(BodyState()))), ground.cells, baseWidth, baseHeight)
      ensures facingDirection == old(facingDirection) && bombs == old(bombs)
      ensures ChargerState() == old(ChargerState()) && trajectoryPoints == old(trajectoryPoints)
      ensures forall k :: 0 <= k < |bombs| ==>
                bombs[k].State() == old(bombs[k].State()) && bombs[k].explosion == old(bombs[k].explosion)
    {
      ApplyGravity();
      x := x + vx;
      y := y + vy;
      CollideWithMap(ground);
    }

    /** The frame after the input: gravity, motion, the collision pass, then the bombs. */
    method MoveAndUpdateBombs(ground: GroundMap, deaths: Explosion -> nat) returns (ghost all: seq<Bomb>)
      requires Valid()
      modifies this, bombs, ExplosionsOf(bombs)
      ensures Valid()
      ensures BodyState() == Collide(Move(Fall(old(BodyState()))), ground.cells, baseWidth, baseHeight)
      ensures facingDirection == old(facingDirection)
      ensures ChargerState() == old(ChargerState()) && trajectoryPoints == old(trajectoryPoints)
      ensures all == old(bombs) && bombs == ActiveOf(all)
      ensures forall b :: b in bombs ==> b.active
      ensures forall k :: 0 <= k < |all| ==>
                all[k].State() == BombFrame(old(all[k].State()), ground.cells, Deaths(old(all[k].explosion), deaths))
    {
      all := bombs;
      MoveAndCollide(ground);
      ghost var moved := BodyState();
      UpdateBombs(ground, deaths);
      assert BodyState() == moved;
    }

    /** The keys of one frame on a sound player: it stays sound, and a throw adds one fresh bomb. */
    method TakeInput(keys: Keys) returns (ghost act: BombAction, ghost steered: Body)
      requires Valid()
      modifies this
      ensures Valid()
      ensures act == ChargeStep(old(ChargerState()), keys.hasBombKey, keys.bomb).1
      ensures steered == Steer(old(BodyState()), keys) && BodyState() == steered
      ensures facingDirection == if keys.left then Left else if keys.right then Right else old(facingDirection)
      ensures ChargerState() == ChargeStep(old(ChargerState()), keys.hasBombKey, keys.bomb).0
      ensures PreviewOutcome(act, old(trajectoryPoints), trajectoryPoints,
                             ThrowFlight(steered, baseWidth, baseHeight, facingDirection, bombChargeTime),
                             steered.y + baseHeight * 2.0)
      ensures act == Throw ==>
                |bombs| == |old(bombs)| + 1 && bombs[..|old(bombs)|] == old(bombs) && fresh(bombs[|old(bombs)|]) &&
                bombs[|old(bombs)|].explosion == null &&
                bombs[|old(bombs)|].State() ==
                LaunchState(ThrowFlight(steered, baseWidth, baseHeight, facingDirection, old(bombChargeTime)))
      ensures act != Throw ==> bombs == old(bombs)
      ensures forall k :: 0 <= k < |old(bombs)| ==>
                bombs[k].State() == old(bombs[k].State()) && bombs[k].explosion == old(bombs[k].explosion)
      ensures ExplosionsOf(bombs) <= old(ExplosionsOf(bombs)) + {null}
    {
      ghost var before, exps := bombs, ExplosionsOf(bombs);
      act := ChargeStep(ChargerState(), keys.hasBombKey, keys.bomb).1;
      HandleInput(keys);
      steered := BodyState();
      assert ExplosionsOf(before) == exps;
      ChargeStepKeepsBounds(old(ChargerState()), keys.hasBombKey, keys.bomb);
      if |bombs| != |before| {
        assert bombs == before + [bombs[|before|]];
        SoundAppend(before, bombs[|before|]);
        ExplosionsOfAppend(before, bombs[|before|]);
      }
    }

    /**
     * One frame: input, gravity, motion, the collision pass, then the bombs.
     * `thrown` is the bomb list after the input, with the bomb thrown this
     * frame if any, and `steered` the body after the input.
     */
    method Update(keys: Keys, ground: GroundMap, deaths: Explosion -> nat) returns (ghost act: BombAction, ghost thrown: seq<Bomb>, ghost steered: Body)
      requires Valid()
      modifies this, bombs, ExplosionsOf(bombs)
      ensures Valid()
      ensures act == ChargeStep(old(ChargerState()), keys.hasBombKey, keys.bomb).1
      ensures steered == Steer(old(BodyState()), keys)
      ensures BodyState() == Collide(Move(Fall(steered)), ground.cells, baseWidth, baseHeight)
      ensures facingDirection == if keys.left then Left else if keys.right then Right else old(facingDirection)
      ensures ChargerState() == ChargeStep(old(ChargerState()), keys.hasBombKey, keys.bomb).0
      ensures PreviewOutcome(act, old(trajectoryPoints), trajectoryPoints,
                             ThrowFlight(steered, baseWidth, baseHeight, facingDirection, bombChargeTime),
                             steered.y + baseHeight * 2.0)
      ensures act == Throw ==>
                |thrown| == |old(bombs)| + 1 && thrown[..|old(bombs)|] == old(bombs) && fresh(thrown[|old(bombs)|])
      ensures act != Throw ==> thrown == old(bombs)
      ensures bombs == ActiveOf(thrown)
      ensures forall b :: b in bombs ==> b.active
      ensures forall k :: 0 <= k < |old(bombs)| ==>
                thrown[k].State() == BombFrame(old(bombs[k].State()), ground.cells, Deaths(old(bombs[k].explosion), deaths))
      ensures act == Throw ==>
                thrown[|old(bombs)|].State() ==
                BombFrame(LaunchState(ThrowFlight(steered, baseWidth, baseHeight, facingDirection, old(bombChargeTime))),
                          ground.cells, 0)
    {
      act, steered := TakeInput(keys);
      thrown := MoveAndUpdateBombs(ground, deaths);
    }
  }
}
