# form-game: terrain, players, bombs and camera

This project models the sequential game logic of form-game, a two-player browser game. It is written in Dafny and proves properties of that model.

- **Noise** (`Utils`). A seeded linear-congruential generator drives a Fisher–Yates shuffle of a 256-entry table. The table is then duplicated to 512 entries. One-dimensional gradient noise is read off it with the smootherstep fade.
- **Terrain** (`Terrain`). The ground is a sparse map from grid cells to block materials. It holds 200 columns of 10 blocks each. Each column's surface comes from the noise, and its material goes by depth: grass, then dirt, then stone. A bottom-up scan of one column picks the spawn row.
- **Set-up** (`GameSetup`). The one-time set-up of the game view:
  - the base ground row from the canvas height;
  - the terrain and the spawn search;
  - both players at the same spawn height;
  - the camera following the two players.
- **Players** (`Players`). Keyboard steering with a speed cap, the jump guard and gravity. The hitbox is resolved against the block grid along the axis of smaller penetration. The bomb key runs the charge / throw / cooldown cycle. A trajectory preview matches the free flight of the thrown bomb, before any bounce. The bomb loop keeps the active bombs in order.
- **Bombs** (`Projectiles`). A bomb flies under its own gravity for a 120-frame fuse and bounces off the ground and walls. It then becomes an explosion that lives for at most 60 frames.
- **Colours** (`Colors`). `adjustColor` parses a colour name, `#rgb` or `#rrggbb`, adds an amount to each channel and clamps it to 0..255.
- **Camera** (`Cameras`). The camera:
  - follows the mean of the players' centres;
  - zooms so that the padded bounding box of the centres fits the canvas, within [0.6, 1];
  - moves 10% of the way to the midpoint and 5% of the way to the target scale each frame.

Each frame-step piece of imperative code is a method of a class whose fields the source updates (`Player`, `Bomb`, `Explosion`, `Camera`, `PerlinNoise`, `GroundMap`). Each such method is proved to compute a pure function of the old state, and lemmas state what those functions guarantee. Numbers are `real`. The generator's arithmetic is exact on integers.

Three behaviours of the source are worth knowing. Each is proved, not corrected:

- **The spawn scan finds the bottom block.** The scan runs from 10 rows below the base row upwards and stops at the first block it meets. That block is the spawn column's deepest block, 9 rows below its surface, not the "top-most" block its comment names. Player 1, who stands over the spawn column, therefore starts inside that column's terrain: its body fills row surface + 7, and its hitbox reaches into rows + 6 and + 8 (`Terrain.SpawnRowIsColumnBottom`, `GameSetup.BuildWorld`). Player 2 stands over column 4 at the same height; whether it starts inside depends on that column's own surface, which the model does not compute for the seed.
- **The collision pass can leave an overlap.** It does not always separate the hitbox from the blocks. A body standing still with equal overlaps takes the horizontal branch, which needs horizontal motion, so nothing moves (`Players.CollideCanLeaveOverlap`).
- **The camera starts off-centre.** Its start position `midpoint - canvasSize / 2 / scale` draws the midpoint at the far (right, bottom) edge of the canvas. The view transform draws the camera position at the centre, so `update` then pans the midpoint in (`Cameras.StartDrawsMidpointAtEdge`).

## Model

| member | source | states |
|---|---|---|
| Utils.Lerp | src/game/utils.ts:8-10 | definition of `lerp`, `a + (b - a) * t`; properties in `LerpEndpoints`, `LerpBetween`, `LerpContracts` and `LerpAbsBound` |
| Utils.LerpEndpoints | src/game/utils.ts:8-10 | `lerp(a, b, 0) == a` and `lerp(a, b, 1) == b` |
| Utils.LerpBetween | src/game/utils.ts:8-10 | for t in [0, 1] the result lies between a and b |
| Utils.LerpContracts | src/game/utils.ts:8-10 | one step shrinks the distance to b by exactly the factor 1 - t |
| Utils.LerpAbsBound | src/game/utils.ts:8-10 | the result's magnitude is at most the convex combination of the end points' magnitudes |
| Utils.JsRem | src/game/utils.ts:40 | JavaScript `%` on integers: the remainder has the dividend's sign and is below the modulus in magnitude |
| Utils.NextState | src/game/utils.ts:40 | definition of the LCG step `(1103515245 * s + 12345) % 2^31` with JavaScript `%`; properties in `DrawInUnitInterval` and `SeededRandom.Next` |
| Utils.Draw | src/game/utils.ts:39-42 | definition of the value drawn, the next state over 2^31; properties in `DrawInUnitInterval` |
| Utils.DrawInUnitInterval | src/game/utils.ts:37-43 | from a non-negative state the next state is in [0, 2^31) and the value drawn is in [0, 1) |
| Utils.SeededRandom.constructor | src/game/utils.ts:37-38 | the state starts at the seed |
| Utils.SeededRandom.Next | src/game/utils.ts:39-42 | the state advances by the LCG step, the value is state / 2^31, and from a non-negative state both stay in range |
| Utils.SwapIndex | src/game/utils.ts:28 | definition of the swap partner `Math.floor(r * (i + 1))`; properties in `SwapIndexInRange` |
| Utils.SwapIndexInRange | src/game/utils.ts:28 | with a draw in [0, 1) the swap partner `floor(r * (i + 1))` lies in [0, i] |
| Utils.Swap | src/game/utils.ts:29 | the two entries are exchanged and every other entry is kept |
| Utils.SwapPermutes | src/game/utils.ts:29 | a swap keeps the multiset of entries |
| Utils.ShuffleFromPermutes | src/game/utils.ts:27-30 | the whole shuffle from any position is a permutation of its input |
| Utils.Shuffled | src/game/utils.ts:24-30 | the shuffled table has 256 entries |
| Utils.ShuffleFrom | src/game/utils.ts:27-30 | the shuffle from position i keeps the table's length |
| Utils.Identity | src/game/utils.ts:24 | the unshuffled table holds 0..255 in order |
| Utils.Table | src/game/utils.ts:24-33 | definition of `permutation`, the shuffled table followed by a copy of itself; properties in `TableIsDuplicatedPermutation` and `PerlinNoise.constructor` |
| Utils.TableIsDuplicatedPermutation | src/game/utils.ts:24-33 | the shuffled table is a permutation of 0..255; the full table has 512 entries, all in [0, 255], and its second half repeats the first |
| Utils.PerlinNoise.constructor | src/game/utils.ts:19-34 | the in-place Fisher–Yates loop leaves `p` equal to the shuffle of the seed and `permutation` equal to `p` twice |
| Utils.Grad | src/game/utils.ts:51-54 | `x` for an even hash, `-x` for an odd one, so its magnitude is `|x|` |
| Utils.Fade | src/game/utils.ts:46-48 | definition of the smootherstep `6t^5 - 15t^4 + 10t^3`; properties in `FadeEndpoints` and `FadeBounds` |
| Utils.FadeEndpoints | src/game/utils.ts:46-48 | `fade(0) == 0`, `fade(1) == 1` and `fade(1/2) == 1/2` |
| Utils.FadeBounds | src/game/utils.ts:46-48 | on [0, 1] the fade stays in [0, 1] and is on the same side of 1/2 as its argument |
| Utils.BlendBound | src/game/utils.ts:65-76 | a blend weight on the nearer corner's side never widens the blend past 1/2 |
| Utils.PerlinNoise.Noise | src/game/utils.ts:61-82 | definition of the one-dimensional noise: the table's hashes of the two corner cells, their gradients and the faded blend; properties in `NoiseIndicesInRange`, `NoiseZeroAtIntegers`, `NoiseBounded` and `SameSeedSameNoise` |
| Utils.NoiseIndicesInRange | src/game/utils.ts:62-69 | `X` is in [0, 255], `X + 1 <= 256`, and both hashes `a`, `b` are in [0, 255] |
| Utils.NoiseZeroAtIntegers | src/game/utils.ts:61-81 | the noise is 0 at every integer |
| Utils.GradBlendBound | src/game/utils.ts:72-81 | the blended corner gradients, times 2, lie in [-1, 1] |
| Utils.NoiseBounded | src/game/utils.ts:56-82 | the noise lies in [-1, 1], the range its documentation gives |
| Utils.SameSeedSameNoise | src/game/utils.ts:19-34 | two generators built from the same seed have the same table and give the same noise everywhere |
| Terrain.GroundMap.constructor | src/components/GameCanvas.tsx:155 | the map starts empty |
| Terrain.GroundMap.Clear | src/components/GameCanvas.tsx:155 | the map is emptied |
| Terrain.GroundMap.Set | src/components/GameCanvas.tsx:185 | exactly one cell is written |
| Terrain.ColorOf | src/components/GameCanvas.tsx:172-183 | definition of the colour string of each material (`#2E8B57`, `#A0522D`, `#808080`); used only to read the materials back as the source's colours |
| Terrain.GridOf | src/game/Player.ts:605-608 | `floor(v / 50)` is the cell whose span holds `v` |
| Terrain.GridOfEdge | src/game/Player.ts:617-619 | a block's start edge lies in that block's own cell |
| Terrain.Round | src/components/GameCanvas.tsx:165 | `Math.round` gives the nearest integer, halves rounded up |
| Terrain.HeightVariation | src/components/GameCanvas.tsx:161-165 | definition of a column's rise, `round((noise + 1) / 2 * 4)`; properties in `HeightVariationInRange` |
| Terrain.HeightVariationInRange | src/components/GameCanvas.tsx:161-165 | a noise value in [-1, 1] gives a column rise between 0 and 4 |
| Terrain.ColumnTopY | src/components/GameCanvas.tsx:159-167 | definition of a column's surface row, `minGroundGridY` less its rise; properties in `ColumnTops`, `ColumnTopAt`, `ColumnTopsInRange` and `SurfaceRow` |
| Terrain.ColumnTops | src/components/GameCanvas.tsx:159-167 | the 200 surface rows, column by column, from the noise at `gx * 0.05` |
| Terrain.ColumnTopAt | src/components/GameCanvas.tsx:159-167 | column `gx`'s entry is that column's surface row |
| Terrain.ColumnTopsInRange | src/components/GameCanvas.tsx:159-167 | every surface lies between `minGroundGridY - 4` and `minGroundGridY` |
| Terrain.MaterialAtDepth | src/components/GameCanvas.tsx:172-183 | definition of the material by depth below the surface; properties in `TerrainLayers` |
| Terrain.IsTerrain | src/components/GameCanvas.tsx:155-187 | definition of the terrain map: exactly the cells of the 200 columns, 10 deep below each surface, with their materials; properties in `TerrainIsDetermined`, `TerrainLayers`, `SpawnRowIsColumnBottom`, `SpawnScanSucceeds` and `GenerateTerrain` |
| Terrain.TerrainIsDetermined | src/components/GameCanvas.tsx:155-186 | the map is determined by the column surfaces, so regenerating them gives an identical map |
| Terrain.TerrainLayers | src/components/GameCanvas.tsx:172-185 | depth 0 is grass, depth 1-2 dirt, depth 3-9 stone, each if and only if |
| Terrain.StartColumn | src/components/GameCanvas.tsx:170 | a finished column prefix is a partly built one at the next column's surface |
| Terrain.FinishColumn | src/components/GameCanvas.tsx:170-186 | a column whose 10 rows are written completes one more column |
| Terrain.AddCell | src/components/GameCanvas.tsx:170-185 | the next cell is not yet in the map, and writing its material extends the built part |
| Terrain.AllColumnsBuilt | src/components/GameCanvas.tsx:159-187 | all 200 columns built is exactly the terrain |
| Terrain.FillColumn | src/components/GameCanvas.tsx:170-186 | the inner loop writes the column's 10 cells with their materials, each a new cell |
| Terrain.SurfaceRow | src/components/GameCanvas.tsx:161-167 | the surface row computed for a column is its entry of the surfaces |
| Terrain.GenerateTerrain | src/components/GameCanvas.tsx:155-187 | after clearing, the map holds exactly the 200 columns of 10 cells with their materials, 2000 cells in all |
| Terrain.FindSpawn | src/components/GameCanvas.tsx:190-203 | success iff a block lies in rows `min - 4 .. min + 10` of column 2; the row found is the largest such; the fallback is the base row; spawn height `row * 50 - 100` |
| Terrain.SpawnRowIsColumnBottom | src/components/GameCanvas.tsx:194-200 | on the terrain the row the scan finds is the column's bottom block, surface + 9 |
| Terrain.SpawnScanSucceeds | src/components/GameCanvas.tsx:194-200 | with the column's rise in [0, 4] the scan range always holds a block |
| GameSetup.Ceil | src/components/GameCanvas.tsx:145 | `Math.ceil` is the least integer at or above its argument |
| GameSetup.MinGroundGridY | src/components/GameCanvas.tsx:145-146 | definition of the base ground row, `ceil(canvasHeight / 50) - 22`; properties in `MinGroundGridYPlacement` and `BuildWorld` |
| GameSetup.MinGroundGridYPlacement | src/components/GameCanvas.tsx:145-146 | the base ground row is 22 rows above the first row reaching the canvas bottom |
| GameSetup.SeededTerrain | src/components/GameCanvas.tsx:140-187 | the generator has the seed 12345 and the map holds exactly its terrain |
| GameSetup.BuildWorld | src/components/GameCanvas.tsx:140-203 | the map holds exactly the seeded terrain; the spawn row is the spawn column's surface + 9, and the spawn height that row's top less 100 |
| GameSetup.FollowPlayers | src/components/GameCanvas.tsx:227-229 | the camera over the players at x = 100 and x = 200 starts with its midpoint at x = 175 and at the common centre height |
| GameSetup.InitEnvironment | src/components/GameCanvas.tsx:140-229 | the terrain and spawn row as above; both players are 50 x 50, at x = 100 and x = 200 and the same spawn height; the camera follows the two of them |
| Players.SteerVx | src/game/Player.ts:668-685 | the new speed is at most 7 in magnitude and is either 0 or at least 0.1 in magnitude |
| Players.SteerLeftPriority | src/game/Player.ts:668-673 | holding both keys is holding the left one |
| Players.SteerTowardKey | src/game/Player.ts:668-685 | a held key never slows the body in its direction; friction, applied only with neither key held, never speeds it up or turns it |
| Players.Steer | src/game/Player.ts:666-692 | a jump happens iff the key is held, the body is on the ground and not jumping; it sets `vy = -12`, jumping and not grounded; otherwise the vertical state is kept |
| Players.JumpLeavesGround | src/game/Player.ts:688-692 | a jump never leaves a body both jumping and grounded |
| Players.Fall | src/game/Player.ts:588-592 | gravity 0.5 acts only off the ground |
| Players.Move | src/game/Player.ts:733-734 | one frame moves the position by the speed and keeps the rest |
| Players.Hitbox | src/game/Player.ts:599-602 | the base box padded by 5 on the sides and by 11 above and below |
| Players.BlockBox | src/game/Player.ts:617-620 | definition of the block's bounds, 50 pixels from the cell's corner; properties in `ResolveCellAxis` and `CollideCanLeaveOverlap` |
| Players.Overlaps | src/game/Player.ts:623 | definition of the strict AABB test, touching boxes not colliding; properties in `ResolveCellAxis` and `CollideCanLeaveOverlap` |
| Players.OverlapX | src/game/Player.ts:627 | definition of the horizontal penetration, `min(hbRight - blockLeft, blockRight - hbLeft)`; properties in `ResolveCellAxis` |
| Players.OverlapY | src/game/Player.ts:628 | definition of the vertical penetration, `min(hbBottom - blockTop, blockBottom - hbTop)`; properties in `ResolveCellAxis` |
| Players.ResolveCell | src/game/Player.ts:623-651 | definition of one cell of the collision pass: a landing, a ceiling hit or a horizontal push-out along the axis of smaller overlap; properties in `ResolveCellAxis`, `ResolveCellLanding` and `ResolveCellGrounded` |
| Players.ResolveRow | src/game/Player.ts:612-660 | definition of one row of cells, left to right, with the hitbox re-taken after each cell; properties in `ResolveRowGrounded` and `ResolveRowEmpty` |
| Players.ResolveRows | src/game/Player.ts:611-661 | definition of the rows, top to bottom; properties in `ResolveRowsGrounded` and `ResolveRowsEmpty` |
| Players.Collide | src/game/Player.ts:595-663 | definition of the whole pass: the ground flag cleared, the cell range taken once from the hitbox, then the rows; properties in `CollideGrounded`, `CollideInOpenAir`, `CollideCanLeaveOverlap` and `Player.CollideWithMap` |
| Players.ResolveCellAxis | src/game/Player.ts:623-651 | an empty or untouched cell changes nothing; the vertical fields change only when `overlapY < overlapX`, the horizontal ones only otherwise, so ties resolve horizontally |
| Players.ResolveCellLanding | src/game/Player.ts:633-637 | the ground flag is set only by a landing, which puts the hitbox bottom on the block's top with `vy = 0` and no jump |
| Players.Grounded | src/game/Player.ts:633-637 | definition of the grounded-means-landed invariant: a grounded body has `vy = 0`, no jump, and its hitbox bottom on the top of a block within the given cell range; properties in `ResolveCellGrounded`, `ResolveRowGrounded`, `ResolveRowsGrounded` and `CollideGrounded` |
| Players.ResolveCellGrounded | src/game/Player.ts:623-651 | one cell of the visited range keeps the invariant: grounded only after landing on a block of that range |
| Players.ResolveRowGrounded | src/game/Player.ts:612-661 | a row of cells within the range keeps it |
| Players.ResolveRowsGrounded | src/game/Player.ts:611-662 | the rows of the range keep it |
| Players.CollideGrounded | src/game/Player.ts:595-663 | after the pass the body is grounded only if it landed on a block of the map within the cell range the pass visits (taken from the hitbox before the pass), with its hitbox bottom on that block's top, `vy = 0` and no jump |
| Players.ResolveRowEmpty | src/game/Player.ts:612-616 | a row with no block leaves the body as it is |
| Players.ResolveRowsEmpty | src/game/Player.ts:611-616 | rows with no block leave the body as it is |
| Players.CollideInOpenAir | src/game/Player.ts:595-616 | with no block in the spanned cells the pass only clears the ground flag |
| Players.CollideCanLeaveOverlap | src/game/Player.ts:605-650 | a concrete body that still overlaps a block after the pass |
| Players.BombKeyStep | src/game/Player.ts:695-719 | definition of the bomb key's branch: start, keep charging, throw, or clear the preview, by key, cooldown and charge; properties in `ChargeStepKeepsBounds`, `ThrowOnRelease`, `ChargeStartsOffCooldown` and `Player.BombKeyAction` |
| Players.CoolDown | src/game/Player.ts:721-724 | definition of the cooldown count-down outside a charge; properties in `ChargeStepKeepsBounds` |
| Players.ChargeStep | src/game/Player.ts:695-724 | definition of one frame of the bomb key: the key branch, then the cooldown; properties in `ChargeStepKeepsBounds`, `ThrowOnRelease`, `ChargeStartsOffCooldown`, `HoldingSaturates` and `Player.HandleBombKey` |
| Players.ChargeStepKeepsBounds | src/game/Player.ts:697-724 | the charge stays in 0..90, the cooldown in 0..30, and no charge runs during a cooldown |
| Players.ThrowOnRelease | src/game/Player.ts:706-711 | a throw happens iff the key is released during a charge; it leaves no charge and a cooldown of 29 |
| Players.ChargeStartsOffCooldown | src/game/Player.ts:697-700 | a charge starts iff the key is pressed off cooldown with no charge running, and it starts at 0 |
| Players.HoldingSaturates | src/game/Player.ts:701-703 | holding the key n frames gives a charge of min(start + n, 90) |
| Players.ThrowStrength | src/game/Player.ts:1490-1491 | definition of the throw strength, `lerp(4, 12, charge / 90)`; properties in `ThrowStrengthInRange` |
| Players.ThrowStrengthInRange | src/game/Player.ts:1490-1491 | the throw strength lies in [4, 12]: 4 at no charge, 12 at full charge |
| Players.ThrowPoint | src/game/Player.ts:1493-1494 | definition of the throw point, `(x + baseWidth / 2, y + baseHeight / 4)`, shared by the preview (1493-1494) and the throw (1525-1526); used through `ThrowFlight` |
| Players.ThrowFlight | src/game/Player.ts:1490-1496 | definition of the throw's launch flight from the throw point with the charge's strength, as both `calculateTrajectory` and `throwBomb` (1522-1529) set it up; properties in `Player.CalculateTrajectory`, `Player.ThrowBomb` and `Player.Update` |
| Players.KeptAt | src/game/Player.ts:1502-1504 | definition of the points a simulation step keeps: the position when `i % 3 == 0`, else none; properties in `TrajectoryFromStep` and `TrajectoryFromOnFlight` |
| Players.TrajectoryFrom | src/game/Player.ts:1500-1515 | definition of the preview from simulation step i: every third point, up to 20, until the floor; properties in `TrajectoryFromStep`, `TrajectoryFromLength`, `TrajectoryFromOnFlight`, `TrajectoryShape`, `TrajectoryOnFlight` and `SimulateTrajectory` |
| Players.TrajectoryFromStep | src/game/Player.ts:1501-1516 | one step of the preview recursion: keep the point on every third step, stop below the floor |
| Players.TrajectoryFromLength | src/game/Player.ts:1498-1516 | from step i the preview has at most 20 - ceil(i / 3) points, and at least one when i is a multiple of 3 |
| Players.TrajectoryShape | src/game/Player.ts:1488-1516 | the preview has 1 to 20 points, and the first is the throw point |
| Players.NextKeptStep | src/game/Player.ts:1503 | the step count to the next kept point drops by one per step |
| Players.TrajectoryFromOnFlight | src/game/Player.ts:1501-1516 | the k-th point from step i is the flight after the steps to it |
| Players.TrajectoryOnFlight | src/game/Player.ts:1488-1516 | the preview's k-th point is where a bomb thrown now is after 3k frames of free flight, with no bounce: it uses the bomb's `vy0 = -5` and gravity 0.3 |
| Players.TrajectoryAboveFloor | src/game/Player.ts:1513-1515 | starting above the floor, no preview point lies below it |
| Players.SimulationContinues | src/game/Player.ts:1501-1516 | a simulation step above the floor keeps the preview loop's invariant |
| Players.SimulationLands | src/game/Player.ts:1513-1515 | the step that falls below the floor completes the preview |
| Players.SimulationFrame | src/game/Player.ts:1503-1515 | one step of the preview loop, proved against the preview function |
| Players.SimulateTrajectory | src/game/Player.ts:1501-1516 | the preview loop computes exactly the preview function |
| Players.ActiveOf | src/game/Player.ts:739-748 | the active bombs of a list, in order: only listed active bombs, and all of them |
| Players.Survivors | src/game/Player.ts:744-747 | definition of what the splices leave: the bombs whose flag is set, in order; properties in `SurvivorsCons`, `ActiveOfSurvivors` and `SpliceKept` |
| Players.ActiveOfCons | src/game/Player.ts:739-748 | the active bombs from position i are bomb i if active, then the rest |
| Players.SurvivorsCons | src/game/Player.ts:739-748 | the flagged bombs from position i are bomb i if flagged, then the rest |
| Players.ActiveOfSurvivors | src/game/Player.ts:739-748 | the active bombs are the survivors under the active flags |
| Players.SoundAppend | src/game/Player.ts:1529 | a newly thrown bomb can join a sound bomb list |
| Players.SoundByIndex | src/game/Player.ts:739-748 | a sound list's facts hold index by index |
| Players.SoundSublist | src/game/Player.ts:744-747 | a list spliced from a sound list is sound |
| Players.FramesOf | src/game/Player.ts:739-748 | each bomb's frames left, by index |
| Players.ActiveFlags | src/game/Player.ts:739-748 | each bomb's active flag, by index |
| Players.StepBomb | src/game/Player.ts:740-742 | bomb i's new fields are its `update` then its `collideWithMap` (`BombFrame`) of its old fields with its explosion's particle deaths, and it is advanced; every other bomb keeps its fields, explosion, activity and frames left |
| Players.VisitBomb | src/game/Player.ts:740-747 | one turn of the reverse loop keeps its invariant: bomb i now holds `BombFrame` of its fields before the loop, and it is spliced out of the list exactly when inactive |
| Players.LoopStart | src/game/Player.ts:739 | before the loop no bomb is visited, and the recorded fields and deaths are each bomb's own |
| Players.RunBombLoop | src/game/Player.ts:739-748 | the reverse loop, from the last bomb to the first, ends with every bomb visited |
| Players.LoopDone | src/game/Player.ts:739-748 | at the end the list holds the active bombs in their original order, and every bomb holds `BombFrame` of its recorded fields |
| Players.StepBombs | src/game/Player.ts:739-748 | each bomb's new fields are `BombFrame` of its old fields; the list left is exactly the active bombs in their original order, each advanced one frame |
| Players.PreviewOutcome | src/game/Player.ts:697-719 | definition of the preview each bomb-key action leaves: cleared by a throw and by a release outside a charge, recomputed from the throw point while charging, kept otherwise; properties in `Player.BombKeyAction`, `Player.HandleBombKey` and `Player.Update` |
| Players.KeyOutcome | src/game/Player.ts:697-719 | definition of the bomb list each bomb-key action leaves: a throw appends one valid bomb with no explosion, launched on the throw flight, and every other action keeps the list; properties in `Player.BombKeyAction`, `Player.HandleBombKey` and `Player.HandleInput` |
| Players.Player.constructor | src/game/Player.ts:471-477 | a player at rest, not grounded, facing right, with no bombs and nothing charged |
| Players.Player.ApplyGravity | src/game/Player.ts:588-592 | the body follows `Fall`; nothing else changes |
| Players.Player.ResolveAgainst | src/game/Player.ts:613-659 | one cell of the pass follows `ResolveCell` and the hitbox bounds are taken again from the new position |
| Players.Player.CollideWithMap | src/game/Player.ts:595-663 | the nested loops follow `Collide`: the flag reset, the cell range taken once, cells in row-major order |
| Players.Player.CalculateTrajectory | src/game/Player.ts:1488-1517 | the preview is the trajectory of the throw flight for the current charge, floor at `y + 2 * height` |
| Players.Player.ThrowBomb | src/game/Player.ts:1520-1531 | exactly one new bomb is appended, on the throw flight with a full fuse; the cooldown is 30 |
| Players.Player.SteerAndJump | src/game/Player.ts:667-692 | the body follows `Steer`, and facing follows the key held (left first) |
| Players.Player.StartCharging | src/game/Player.ts:697-700 | a charge starts at 0; bombs and preview are kept |
| Players.Player.KeepCharging | src/game/Player.ts:701-705 | the charge rises by one frame up to 90 and the preview is recomputed |
| Players.Player.ReleaseBomb | src/game/Player.ts:706-711 | one bomb is thrown, the charge is reset, the cooldown is 30 and the preview cleared |
| Players.Player.ClearPreview | src/game/Player.ts:712-719 | only the preview is cleared |
| Players.Player.BombKeyAction | src/game/Player.ts:695-719 | the action and the charger follow `BombKeyStep`; the bomb list and the preview change as that action says (`KeyOutcome`, `PreviewOutcome`); body and facing are kept |
| Players.Player.HandleBombKey | src/game/Player.ts:695-724 | the charger follows `ChargeStep`, the cooldown counted down off charge |
| Players.Player.HandleInput | src/game/Player.ts:666-725 | steering, the jump and the bomb key, in that order |
| Players.Player.UpdateBombs | src/game/Player.ts:739-748 | each old bomb's new fields are `BombFrame` of its old fields; the list becomes its active bombs in order; body, facing, charger and preview are kept |
| Players.Player.MoveAndCollide | src/game/Player.ts:730-736 | the body becomes `Collide(Move(Fall(body)))`: gravity, then motion, then the collision pass; everything else, bombs included, is kept |
| Players.Player.MoveAndUpdateBombs | src/game/Player.ts:730-748 | the body follows gravity, motion and the collision pass; each bomb's new fields are `BombFrame` of its old ones, and the list becomes its active bombs |
| Players.Player.TakeInput | src/game/Player.ts:666-725 | the body follows `Steer`, facing the key held, the charger `ChargeStep`, the preview its action; a throw appends one fresh bomb at `LaunchState` of the throw flight, and the old bombs are untouched |
| Players.Player.Update | src/game/Player.ts:728-748 | one frame: body `Collide(Move(Fall(Steer(body, keys))))`, facing by the key held, charger by `ChargeStep`, the preview by its action; each old bomb's new fields are `BombFrame` of its old ones, a bomb thrown this frame holds `BombFrame` of its launch, and the bombs left are the active ones in order |
| Projectiles.Fly | src/game/Player.ts:233-236 | definition of one frame of free flight: gravity 0.3 onto `vy`, then the position moves by the speed; properties in `FlyNClosedForm` and `FlyNCompose` |
| Projectiles.FlyN | src/game/Player.ts:233-236 | definition of n frames of free flight; properties in `FlyNClosedForm`, `FlyNCompose` and `TrajectoryOnFlight` |
| Projectiles.FlyNClosedForm | src/game/Player.ts:233-236 | free flight in closed form: x + n vx, and y + n vy + 0.3 n(n+1)/2 |
| Projectiles.FlyNCompose | src/game/Player.ts:233-236 | m frames then n frames of flight are m + n frames |
| Projectiles.Launch | src/game/Player.ts:195-199 | the launch flight: speed `strength` in the facing direction, `vy = -5` |
| Projectiles.Ignite | src/game/Player.ts:76-123 | definition of a new explosion's fields; properties in `Explosion.constructor` and `BombFrameCountsDown` |
| Projectiles.ExplosionStep | src/game/Player.ts:125-148 | definition of one explosion frame; properties in `Explosion.Update` and `BombFrameCountsDown` |
| Projectiles.Explosion.constructor | src/game/Player.ts:76-123 | active with 60 frames, 60 fire and 20 smoke particles per unit of size (none for a size of 0 or less), shockwave from 5 up to 50 times the size |
| Projectiles.Explosion.Update | src/game/Player.ts:125-148 | one frame: particles burn out, the shockwave grows toward its maximum, duration drops by 1, and it is active iff it was, particles remain and frames remain |
| Projectiles.DampBounce | src/game/Player.ts:320-326 | a ground bounce reverses and damps `vy` by 0.6, dropping it to 0 when below 0.5 |
| Projectiles.GroundHitAt | src/game/Player.ts:303-317 | definition of the ground test on one column under the bomb; properties in `GroundHitAtIff`, `GroundBounceRests` and `Bomb.BounceOffGround` |
| Projectiles.GroundHit | src/game/Player.ts:303-317 | definition of a ground hit: some column under the bomb passes the ground test; properties in `Bomb.BounceOffGround` and `Bomb.CollideWithMap` |
| Projectiles.LeftWallAt | src/game/Player.ts:334-343 | definition of the left-wall test on one row of the bomb's left-edge column; properties in `WallTestsArePresence` and `Bomb.BounceOffLeftWall` |
| Projectiles.LeftWall | src/game/Player.ts:334-349 | definition of a left-wall hit: some row passes the test; properties in `Bomb.BounceOffLeftWall` and `Bomb.CollideWithMap` |
| Projectiles.RightWallAt | src/game/Player.ts:352-357 | definition of the right-wall test on one row of the bomb's right-edge column; properties in `WallTestsArePresence` and `Bomb.BounceOffRightWall` |
| Projectiles.RightWall | src/game/Player.ts:352-363 | definition of a right-wall hit: some row passes the test; properties in `Bomb.BounceOffRightWall` and `Bomb.CollideWithMap` |
| Projectiles.GroundHitAtIff | src/game/Player.ts:303-317 | of the ground test's comparisons only the right-edge one can fail |
| Projectiles.WallTestsArePresence | src/game/Player.ts:334-363 | the wall tests come down to block presence |
| Projectiles.GroundBounceRests | src/game/Player.ts:317-319 | after a ground bounce the bomb rests on the block, so the same block is hit again |
| Projectiles.LaunchState | src/game/Player.ts:195-208 | definition of a just-thrown bomb's fields: the launch flight, radius 8, fuse 120, no explosion; properties in `Bomb.constructor`, `Player.ThrowBomb` and `Player.Update` |
| Projectiles.BombUpdate | src/game/Player.ts:218-243 | definition of `update` on a bomb's fields: in flight, one frame of flight and fuse, exploding when it is spent; exploding, the explosion's frame, and the bomb goes out with it or at once without one; properties in `Bomb.Update` and `BombFrameCountsDown` |
| Projectiles.BombUpdateWithoutExplosion | src/game/Player.ts:219-230 | an exploding bomb without an explosion goes out, with its other fields kept |
| Projectiles.BombCollide | src/game/Player.ts:293-364 | definition of `collideWithMap` on a bomb's fields: skipped while exploding, else the first of ground, left wall and right wall that hits; properties in `Bomb.CollideWithMap` and `BombFrameCountsDown` |
| Projectiles.BombFrame | src/game/Player.ts:740-742 | definition of a bomb's turn in the bomb loop, `update` then `collideWithMap`; properties in `BombFrameCountsDown`, `StepBomb`, `StepBombs` and `Player.Update` |
| Projectiles.StateOk | src/game/Player.ts:195-243 | definition of the well-formed bomb fields: in flight with radius 8 and a fuse of 1 to 120, or exploding with radius 0, a spent fuse, and active only while its explosion is; properties in `FramesLeftOfState` and `BombFrameCountsDown` |
| Projectiles.StateFrames | src/game/Player.ts:195-243 | definition of the frames left on a bomb's fields; properties in `FramesLeftOfState` and `BombFrameCountsDown` |
| Projectiles.Bomb.constructor | src/game/Player.ts:195-208 | the launch flight, an 8-pixel radius, a 120-frame fuse, no explosion |
| Projectiles.Bomb.Explode | src/game/Player.ts:210-216 | a new explosion at the bomb's position; the radius becomes 0 and the bomb stays active |
| Projectiles.Bomb.Update | src/game/Player.ts:218-243 | the new fields are `BombUpdate` of the old ones. In flight: one frame of flight, and an explosion exactly when the fuse hits 0; exploding: the explosion advances and the bomb goes out with it; an active bomb's frames left drop, and an inactive bomb stays inactive |
| Projectiles.Bomb.CollideWithMap | src/game/Player.ts:293-364 | the new fields are `BombCollide` of the old ones: skipped while exploding; else the first of ground, left wall, right wall that hits moves the bomb out and damps it |
| Projectiles.Bomb.BounceOffGround | src/game/Player.ts:303-331 | hit iff some column under the bomb passes the ground test; the bomb is then put on the block, `vy` damped, `vx` times 0.8 |
| Projectiles.Bomb.BounceOffLeftWall | src/game/Player.ts:334-349 | hit iff a block is in the left-edge column within the bomb's rows; the bomb is moved right of it and `vx` reversed and damped |
| Projectiles.Bomb.BounceOffRightWall | src/game/Player.ts:352-363 | the same for the right edge |
| Projectiles.BombFrameCountsDown | src/game/Player.ts:218-243 | a bomb's turn (`BombFrame`, its `update` then its `collideWithMap`) keeps it well formed, takes an active bomb one frame closer to its end, exactly one while in flight, and keeps a gone bomb gone |
| Projectiles.FramesLeft | src/game/Player.ts:195-243 | definition of the updates a bomb has left: its fuse plus 60 in flight, its explosion's frames while exploding; properties in `FramesLeftBounded` and `BombFrameCountsDown` |
| Projectiles.FramesLeftOfState | src/game/Player.ts:195-243 | `FramesLeft` is the count on the bomb's fields, which are well formed |
| Projectiles.FramesLeftBounded | src/game/Player.ts:195-243 | a valid bomb has at most 180 updates left (the 120-frame fuse, then the 60-frame explosion), and more than 0 exactly while active |
| Colors.ToLower | src/game/Player.ts:1435 | ASCII letters are lower-cased, other characters kept |
| Colors.HexValue | src/game/Player.ts:1454 | a hex digit's value is below 16 |
| Colors.HexDigit | src/game/Player.ts:1465 | the lower-case digit written for a value below 16 has that value |
| Colors.LowerHexDigitInjective | src/game/Player.ts:1465 | lower-case digits are determined by their value |
| Colors.ParseHex | src/game/Player.ts:1454 | definition of `parseInt(s, 16)` on hex digits; properties in `ParseHexBound`, `ParseHexAppend`, `ParseHexZeros` and `ToHexRoundTrip` |
| Colors.ParseHexBound | src/game/Player.ts:1454 | k digits parse below 16^k |
| Colors.ParseHexAppend | src/game/Player.ts:1454 | appended digits shift the value by one hex place each |
| Colors.ParseHexZeros | src/game/Player.ts:1465 | leading zeros parse as 0 |
| Colors.ToHex | src/game/Player.ts:1465 | definition of `n.toString(16)`; properties in `ToHexRoundTrip` and `Hex6OfValue` |
| Colors.ToHexRoundTrip | src/game/Player.ts:1454-1465 | `parseInt(n.toString(16), 16) == n`; the digits are lower-case and at most k below 16^k |
| Colors.PadStart | src/game/Player.ts:1465 | padding keeps the string at the end and fills the front with the pad character |
| Colors.Clamp | src/game/Player.ts:1455-1463 | the channel limit: in 0..255, unchanged inside, 255 above and 0 below |
| Colors.Unpack | src/game/Player.ts:1455-1465 | `>> 16`, `>> 8 & 0xFF` and `& 0xFF` recover packed channels |
| Colors.LowerHexInjective | src/game/Player.ts:1465 | lower-case digit strings of one length and one value are equal |
| Colors.Lookup | src/game/Player.ts:1420-1437 | the entry found is listed under the key, and None means no entry has that key |
| Colors.NamedColorsShape | src/game/Player.ts:1420-1432 | every name starts with a lower-case letter and every listed colour is `#` and six lower-case digits |
| Colors.Named | src/game/Player.ts:1420-1437 | definition of the name lookup: the listed colour for a lower-cased listed name, else the colour itself; properties in `NamedAccepted`, `HashIsNoName` and `AdjustNamed` |
| Colors.HashIsNoName | src/game/Player.ts:1435-1440 | a colour starting with `#` is never a listed name |
| Colors.Expand | src/game/Player.ts:1448-1450 | three digits are doubled into six |
| Colors.IsHexDigit | src/game/Player.ts:1453 | definition of the characters of `/^[0-9a-fA-F]+$/`; properties in `PoundDigitsAccepts` |
| Colors.AllHex | src/game/Player.ts:1453 | definition of the test `/^[0-9a-fA-F]+$/` on the six digits; properties in `HexDigits`, `PoundDigitsAccepts` and `NamedAccepted` |
| Colors.PoundDigits | src/game/Player.ts:1440-1453 | what it accepts is six hex digits |
| Colors.HexDigits | src/game/Player.ts:1435-1453 | what it accepts is six hex digits |
| Colors.Channel | src/game/Player.ts:1455-1461 | a channel of six digits is below 256 |
| Colors.TwoDigits | src/game/Player.ts:1454 | two digits are worth 16 times the first plus the second |
| Colors.SixDigits | src/game/Player.ts:1454 | six digits are three two-digit channels |
| Colors.Pack | src/game/Player.ts:1465 | definition of `(r << 16) + (b << 8) + g` for channels below 256, as `adjustColor` orders them; properties in `AdjustedNumIs` and `EncodeChannels` |
| Colors.Hex6 | src/game/Player.ts:1465 | definition of `.toString(16).padStart(6, '0')`; properties in `Hex6OfValue` and `EncodeChannels` |
| Colors.Hex6OfValue | src/game/Player.ts:1465 | `toString(16).padStart(6, '0')` below 2^24 is six lower-case digits that parse back to the value |
| Colors.DecodeChannels | src/game/Player.ts:1454-1461 | the parsed number's shifts and masks are the three channels |
| Colors.EncodeChannels | src/game/Player.ts:1465-1466 | the output for packed channels is `#` and six digits with those channels |
| Colors.AdjustedNum | src/game/Player.ts:1452-1466 | definition of the accepted branch on the parsed number: shift and mask the channels, add and clamp, pack and write; properties in `AdjustedNumIs` and `AdjustedNumChannels` |
| Colors.AdjustedNumIs | src/game/Player.ts:1455-1466 | the accepted branch packs its three limited channels |
| Colors.AdjustedNumChannels | src/game/Player.ts:1454-1466 | the accepted branch writes each limited channel in its original position |
| Colors.AdjustHex | src/game/Player.ts:1453-1466 | on six digits, each output channel is `clamp(channel + amount)`, in order, written as `#` and six lower-case digits |
| Colors.AdjustColor | src/game/Player.ts:1415-1473 | definition of `adjustColor`; properties in `AdjustAccepted`, `AdjustRejected`, `AdjustByZero` and `AdjustNamed` |
| Colors.AdjustAccepted | src/game/Player.ts:1415-1473 | on an accepted colour the result is the adjusted form of its digits |
| Colors.AdjustRejected | src/game/Player.ts:1472 | any colour not accepted is returned unchanged |
| Colors.PoundDigitsAccepts | src/game/Player.ts:1440-1453 | the `#` branch accepts `#` and 3 or 6 hex digits, and nothing else |
| Colors.NamedAccepted | src/game/Player.ts:1435-1437 | every listed name is accepted, in any letter case |
| Colors.UnnamedKept | src/game/Player.ts:1435-1440 | any other colour is accepted exactly when its own `#` form is |
| Colors.SixLowerRoundTrip | src/game/Player.ts:1454-1466 | six lower-case digits adjusted by 0 are written back unchanged |
| Colors.DigitPairInjective | src/game/Player.ts:1465 | a channel written as two lower-case digits determines both |
| Colors.ChannelsInjective | src/game/Player.ts:1465 | six lower-case digits are determined by their three channels |
| Colors.AdjustByZero | src/game/Player.ts:1415-1473 | `adjustColor(c, 0)` returns an output-form colour unchanged |
| Colors.AdjustNamed | src/game/Player.ts:1435-1437 | a listed name, in any case, is adjusted as its hex form is |
| Cameras.CentreX | src/game/Camera.ts:59 | definition of a target's horizontal centre, `x + baseWidth / 2`, as in both `calculateMidpoint` (59) and `calculateTargetScale` (76); properties in `CentresXAt` |
| Cameras.CentreY | src/game/Camera.ts:60 | definition of a target's vertical centre, `y + baseHeight / 2`, as on lines 60 and 77; properties in `CentresYAt` |
| Cameras.CentresX | src/game/Camera.ts:57-61 | one horizontal centre per target |
| Cameras.CentresXAt | src/game/Camera.ts:59 | the k-th horizontal centre is `x + baseWidth / 2` of target k |
| Cameras.CentresY | src/game/Camera.ts:57-61 | one vertical centre per target |
| Cameras.CentresYAt | src/game/Camera.ts:60 | the k-th vertical centre is `y + baseHeight / 2` of target k |
| Cameras.Sum | src/game/Camera.ts:55-61 | definition of the `forEach` running sum, first element first; properties in `PrefixSum`, `SumAtLeast`, `SumAtMost` and `Camera.Midpoint` |
| Cameras.PrefixSum | src/game/Camera.ts:57-61 | the running sum grows by each centre in turn |
| Cameras.Least | src/game/Camera.ts:74-82 | the running minimum is at most every centre |
| Cameras.Greatest | src/game/Camera.ts:74-82 | the running maximum is at least every centre |
| Cameras.PrefixExtremes | src/game/Camera.ts:78-81 | one more centre updates the extremes by `Math.min` and `Math.max` |
| Cameras.LeastBelowGreatest | src/game/Camera.ts:85-86 | the spread of the centres is never negative |
| Cameras.SumAtLeast | src/game/Camera.ts:55-61 | centres all at least lo sum to at least n * lo |
| Cameras.SumAtMost | src/game/Camera.ts:55-61 | centres all at most hi sum to at most n * hi |
| Cameras.Mean | src/game/Camera.ts:52-65 | definition of the midpoint, the sum of the centres over their number; properties in `MeanWithinBounds`, `MeanWithin`, `MeanOfEqual`, `MeanOfTwo` and `Camera.Midpoint` |
| Cameras.MeanWithinBounds | src/game/Camera.ts:63-64 | the mean of centres within [lo, hi] is within [lo, hi] |
| Cameras.MeanWithin | src/game/Camera.ts:52-65 | the midpoint lies between the smallest and the largest centre |
| Cameras.SignOfProduct | src/game/Camera.ts:63-64 | a product with a positive factor keeps the other factor's sign |
| Cameras.DivideBounds | src/game/Camera.ts:63-64 | a sum between n * lo and n * hi, divided by n, is between lo and hi |
| Cameras.MeanOfEqual | src/game/Camera.ts:52-65 | targets with one common centre have it as midpoint |
| Cameras.MeanOfTwo | src/game/Camera.ts:55-64 | the mean of two centres is their midpoint |
| Cameras.RequiredSpan | src/game/Camera.ts:85-86 | definition of the required world span, spread plus twice the padding; properties in `RequiredSpanAtLeastPadding` and `TargetScaleFits` |
| Cameras.RequiredSpanAtLeastPadding | src/game/Camera.ts:85-86 | the required world span is at least twice the padding, so the divisions are defined and the NaN fallback is unreachable |
| Cameras.ClampScale | src/game/Camera.ts:94 | the clamp lies in [0.6, 1] and keeps a value already inside |
| Cameras.TargetScaleOf | src/game/Camera.ts:67-100 | the target scale lies in [0.6, 1], and is 1 with no target |
| Cameras.FitsWithin | src/game/Camera.ts:89-94 | a scale at most canvas / span fits the span in the canvas |
| Cameras.ClampedFit | src/game/Camera.ts:89-94 | definition of `max(0.6, min(1, min(canvasWidth / w, canvasHeight / h)))`; properties in `ClampedFitFits`, `ClampedFitTight` and `TargetScaleOf` |
| Cameras.ClampedFitFits | src/game/Camera.ts:89-94 | unclamped from below, the padded spans fit the canvas at the clamped fit |
| Cameras.ClampedFitTight | src/game/Camera.ts:89-94 | strictly inside the limits, one padded span exactly fills the canvas |
| Cameras.TargetScaleFits | src/game/Camera.ts:84-94 | unless clamped at 0.6, the padded box of all centres fits the canvas at the target scale |
| Cameras.TargetScaleTight | src/game/Camera.ts:84-94 | strictly inside the limits the target scale is the largest that fits: one dimension is filled exactly |
| Cameras.ScaleStepInRange | src/game/Camera.ts:107 | a zoom step keeps the scale within [0.6, 1] |
| Cameras.OffsetStep | src/game/Camera.ts:107-116 | one more frame multiplies the offset from the target by 1 - t |
| Cameras.Approach | src/game/Camera.ts:107-116 | definition of n frames of `update`'s smoothing `lerp(v, target, t)` towards a fixed target; properties in `ZoomOffset`, `PanOffset`, `ZoomConverges` and `PanConverges` |
| Cameras.ZoomOffset | src/game/Camera.ts:107 | with a fixed target, n frames leave 0.95^n of the initial scale offset |
| Cameras.PanOffset | src/game/Camera.ts:115-116 | with a fixed midpoint, n frames leave 0.9^n of the initial position offset |
| Cameras.PowerShrinks | src/game/Camera.ts:107-116 | powers of a factor in [0, 1] stay in [0, 1] and do not exceed the factor |
| Cameras.ScaledDistance | src/game/Camera.ts:107-116 | a scaled offset's distance scales alike, and shrinks strictly for a factor below 1 |
| Cameras.ZoomConverges | src/game/Camera.ts:107 | the distance to a fixed target scale is 0.95^n of the initial one, strictly smaller once n > 0 |
| Cameras.PanConverges | src/game/Camera.ts:115-116 | the distance to a fixed midpoint is 0.9^n of the initial one, strictly smaller once n > 0 |
| Cameras.UpdateContracts | src/game/Camera.ts:107-116 | one update leaves 95% of the distance to the target scale and 90% of that to the midpoint |
| Cameras.ToScreen | src/game/Camera.ts:141-142 | definition of the world-to-screen map, `(w - camera) * scale + canvasSize / 2`; properties in `ScreenWorldRoundTrip`, `CameraAtCentre` and `StartDrawsMidpointAtEdge` |
| Cameras.ScreenWorldRoundTrip | src/game/Camera.ts:141-142 | the world-to-screen map and its inverse undo each other for a non-zero scale |
| Cameras.CameraAtCentre | src/game/Camera.ts:141-142 | the camera position is drawn at the canvas centre |
| Cameras.StartDrawsMidpointAtEdge | src/game/Camera.ts:45-49 | the start position draws the midpoint at the far canvas edge |
| Cameras.Camera.constructor | src/game/Camera.ts:25-50 | midpoint and target scale as the calculations give, `scale = targetScale`, position `midpoint - size / 2 / scale`, scales within limits |
| Cameras.Camera.Midpoint | src/game/Camera.ts:55-64 | the summing loop gives the mean of the centres |
| Cameras.Camera.CalculateMidpoint | src/game/Camera.ts:52-65 | the midpoint is the mean of the centres, and is left as it was with no target |
| Cameras.Camera.BoundingBox | src/game/Camera.ts:74-82 | the min/max loop gives the least and greatest centres on both axes |
| Cameras.Camera.FittedScale | src/game/Camera.ts:67-99 | the scale computed is `TargetScaleOf` of the centres |
| Cameras.Camera.CalculateTargetScale | src/game/Camera.ts:67-100 | the target scale is `TargetScaleOf` of the centres |
| Cameras.Camera.Update | src/game/Camera.ts:102-117 | the targets are recomputed, the scale moves 5% and the position 10% of the way to them, and both scales stay within [0.6, 1] |

## Left out

- Drawing is not modelled: all `draw` methods, `roundRect`, `drawArrowhead`, the sky canvas, `applyTransform` / `restoreTransform` and view culling. These are rendering side effects.
- The cosmetic rig animation in `Player.update` is not modelled: arms, shoulders, feet, eyes, hips, squash and stretch. It has no gameplay effect.
- Explosion particles are not modelled. Their spawning and motion use unseeded `Math.random`. The model keeps only how many are alive. Each `Explosion.Update` is given the number of particles that died this frame, and `Bomb.Update` gets that number from a parameter, per explosion.
- React, DOM and input plumbing are not modelled: hooks, key listeners, the resize handler and its ground-adjustment heuristic. The keys of a frame are a `Keys` value. `hasBombKey` says whether a bomb key is configured.
- IEEE-754 doubles are not modelled. Positions and speeds are `real`, so `NaN`, infinities and rounding do not arise.
- Utils.SeededRandom.Next: the LCG is exact on integers. The source computes `1103515245 * state` in doubles, which exceeds 2^53, so its low bits can differ; the model idealises this.
- Utils.PerlinNoise.constructor: it requires a non-negative seed. With a negative seed the source draws negative values and reads `p` at a negative index. The unseeded `Math.random` path is not modelled either.
- The block size is fixed at 50, the only value the callers pass. Blocks are modelled by material, not by colour string (`Terrain.ColorOf` maps back).
- GameSetup.InitEnvironment: it models the first initialisation only. The hot-reload branch, where players already exist, is left out. So are the player colours, which only feed drawing.
- Players.CollideGrounded: no "no overlap after resolution" property is claimed, because the source does not guarantee one (see `Players.CollideCanLeaveOverlap`).
- Colors.ToLower: lower-casing covers ASCII letters only. JavaScript's `toLowerCase` also maps other scripts.
- Colors.Lookup: keys inherited from `Object.prototype` (such as `constructor`) are not modelled. In the source they make `colors[key]` truthy, so `hexColor` becomes a function or an object and `hexColor.startsWith('#')` (Player.ts:1440) throws a `TypeError`.
- Colors.AdjustColor: `amount` is a whole number. A fractional amount would give fractional channels and a different `toString(16)`.
- Colors.UnnamedKept: the if-and-only-if for accepted colours is split over three lemmas (`NamedAccepted`, `UnnamedKept` and `PoundDigitsAccepts`), not stated in one.
- Projectiles.Bomb.Update: the method has no branch for an exploding bomb without an explosion (Player.ts:227-229), because `Bomb.Valid` rules that state out; `BombUpdate`, the function it is proved against, does model the branch.
- Cameras.Least: `Math.min(Infinity, c)` is modelled as starting from the first centre. The two agree for every finite centre.
- Cameras.TargetScaleOf: the source's `isNaN` fallback is not modelled, because it is unreachable over reals (`RequiredSpanAtLeastPadding`).
- Cameras.Camera.Update: it calls the static `Midpoint` and `FittedScale` helpers, which run the same loops as `calculateMidpoint` and `calculateTargetScale`. Its contract states their results on the centres as they were at the call.
- Cameras.Camera.constructor: it computes the midpoint and the target scale before the object is initialised. The source sets 0 and 1 first and then overwrites them, which leaves the same final state.
- Cameras.ZoomConverges: the convergence lemmas are stated for the source's two factors, 0.05 and 0.1, not for a general factor.
- Terrain destruction, splash damage and health do not exist in the source and are not invented. The block map is never written after set-up.
