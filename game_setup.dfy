/*
 * src/components/GameCanvas.tsx, the one-time environment set-up of the game
 * effect: the base ground row from the canvas height, the terrain from a
 * noise generator with the fixed seed, the spawn row search, the two players
 * at the same spawn height and the camera that follows them.
 */
module GameSetup {
  import Utils
  import Terrain
  import Players
  import Cameras

  /** Rows between the base ground row and the last row the canvas shows. */
  const GroundRowsAboveBottom: int := 22
  /** Width and height of both players. */
  const PlayerSize: real := 50.0

  /** `Math.ceil`: the least integer at or above `v`. */
  function Ceil(v: real): (r: int)
    ensures v <= r as real < v + 1.0
  {
    -((-v).Floor)
  }

  /** `Math.ceil(canvas.height / blockSize) - 22`. */
  function MinGroundGridY(canvasHeight: real): int
  {
    Ceil(canvasHeight / Terrain.BlockSize) - GroundRowsAboveBottom
  }

  /** The base ground row sits 22 rows above the first row at or below the canvas bottom. */
  lemma MinGroundGridYPlacement(canvasHeight: real)
    ensures var bottom := MinGroundGridY(canvasHeight) + GroundRowsAboveBottom;
            canvasHeight <= bottom as real * Terrain.BlockSize < canvasHeight + Terrain.BlockSize
  {
    var q := canvasHeight / Terrain.BlockSize;
    var bottom := Ceil(q);
    assert q * Terrain.BlockSize == canvasHeight;
    assert bottom == MinGroundGridY(canvasHeight) + GroundRowsAboveBottom;
  }

  /**
   * The world after set-up: the noise generator has the seed 12345, the map
   * holds exactly its terrain over the base row of the canvas height, and the
   * spawn row is the spawn column's bottom block, nine rows below its surface,
   * with the spawn height 100 above that row's top.
   */
  ghost predicate WorldBuilt(ground: Terrain.GroundMap, noise: Utils.PerlinNoise, canvasHeight: real,
                             spawnGridY: int, finalSpawnY: real)
    reads ground, noise, noise.p
  {
    noise.Valid() && noise.seed == Terrain.NoiseSeed &&
    Terrain.IsTerrain(ground.cells, Terrain.ColumnTops(noise, MinGroundGridY(canvasHeight))) &&
    spawnGridY ==
      Terrain.ColumnTops(noise, MinGroundGridY(canvasHeight))[Terrain.SpawnColumn] + Terrain.TerrainDepth - 1 &&
    finalSpawnY == spawnGridY as real * Terrain.BlockSize - Terrain.SpawnClearance
  }

  /** The noise generator with the fixed seed, and the map filled with its terrain. */
  method SeededTerrain(ground: Terrain.GroundMap, minGroundGridY: int) returns (noise: Utils.PerlinNoise)
    modifies ground
    ensures fresh(noise) && fresh(noise.p) && noise.Valid() && noise.seed == Terrain.NoiseSeed
    ensures Terrain.IsTerrain(ground.cells, Terrain.ColumnTops(noise, minGroundGridY))
  {
    noise := new Utils.PerlinNoise(Terrain.NoiseSeed);
    Terrain.GenerateTerrain(ground, noise, minGroundGridY);
  }

  /**
   * Terrain and spawn: the terrain is generated with the seed 12345 and the
   * spawn row is searched in column 2. The search always succeeds on this
   * terrain, and the row it finds is the spawn column's bottom block, nine
   * rows below its surface.
   */
  method BuildWorld(ground: Terrain.GroundMap, canvasHeight: real)
    returns (noise: Utils.PerlinNoise, spawnGridY: int, finalSpawnY: real)
    modifies ground
    ensures fresh(noise) && fresh(noise.p)
    ensures WorldBuilt(ground, noise, canvasHeight, spawnGridY, finalSpawnY)
  {
    var minGroundGridY := MinGroundGridY(canvasHeight);
    noise := SeededTerrain(ground, minGroundGridY);
    ghost var tops := Terrain.ColumnTops(noise, minGroundGridY);
    ghost var cells := ground.cells;
    Terrain.ColumnTopsInRange(noise, minGroundGridY);
    Terrain.SpawnScanSucceeds(cells, tops, minGroundGridY);
    var foundSpawnY;
    spawnGridY, foundSpawnY, finalSpawnY := Terrain.FindSpawn(ground, minGroundGridY);
    assert ground.cells == cells && Terrain.ColumnTops(noise, minGroundGridY) == tops;
    Terrain.SpawnRowIsColumnBottom(cells, tops, minGroundGridY, spawnGridY);
  }

  /** The camera over the two players, created at x = 100 and x = 200 and the same height. */
  method FollowPlayers(player1: Players.Player, player2: Players.Player, canvasWidth: real, canvasHeight: real)
    returns (camera: Cameras.Camera)
    requires player1.x == Terrain.Player1SpawnX && player2.x == Terrain.Player2SpawnX
    requires player1.y == player2.y
    requires player1.baseWidth == PlayerSize && player1.baseHeight == PlayerSize
    requires player2.baseWidth == PlayerSize && player2.baseHeight == PlayerSize
    ensures fresh(camera) && camera.targets == [player1, player2] && camera.Valid()
    ensures camera.canvasWidth == canvasWidth && camera.canvasHeight == canvasHeight
    ensures camera.midpointX == 175.0 && camera.midpointY == player1.y + PlayerSize / 2.0
  {
    camera := new Cameras.Camera([player1, player2], canvasWidth, canvasHeight);
    var centre := player1.y + PlayerSize / 2.0;
    Cameras.CentresXAt([player1, player2], 0);
    Cameras.CentresXAt([player1, player2], 1);
    Cameras.CentresYAt([player1, player2], 0);
    Cameras.CentresYAt([player1, player2], 1);
    assert Cameras.CentresX([player1, player2]) == [125.0, 225.0];
    assert Cameras.CentresY([player1, player2]) == [centre, centre];
    Cameras.MeanOfTwo(125.0, 225.0);
    Cameras.MeanOfTwo(centre, centre);
  }

  /**
   * The environment initialisation: the world is built, both players are
   * created at the spawn height, and the camera follows the two of them.
   */
  method InitEnvironment(ground: Terrain.GroundMap, canvasWidth: real, canvasHeight: real)
    returns (noise: Utils.PerlinNoise, spawnGridY: int, finalSpawnY: real,
             player1: Players.Player, player2: Players.Player, camera: Cameras.Camera)
    modifies ground
    ensures fresh(noise) && fresh(noise.p)
    ensures WorldBuilt(ground, noise, canvasHeight, spawnGridY, finalSpawnY)
    ensures fresh(player1) && fresh(player2) && player1 != player2
    ensures player1.x == Terrain.Player1SpawnX && player2.x == Terrain.Player2SpawnX
    ensures player1.y == finalSpawnY && player2.y == finalSpawnY
    ensures player1.baseWidth == PlayerSize && player1.baseHeight == PlayerSize
    ensures player2.baseWidth == PlayerSize && player2.baseHeight == PlayerSize
    ensures fresh(camera) && camera.targets == [player1, player2] && camera.Valid()
    ensures camera.midpointX == 175.0 && camera.midpointY == finalSpawnY + PlayerSize / 2.0
  {
    noise, spawnGridY, finalSpawnY := BuildWorld(ground, canvasHeight);
    player1 := new Players.Player(Terrain.Player1SpawnX, finalSpawnY, PlayerSize, PlayerSize);
    player2 := new Players.Player(Terrain.Player2SpawnX, finalSpawnY, PlayerSize, PlayerSize);
    camera := FollowPlayers(player1, player2, canvasWidth, canvasHeight);
  }
}
