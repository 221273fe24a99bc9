/**
 * The terrain grid of src/components/GameCanvas.tsx: a sparse map from grid
 * cell to block material, generated once from the noise field, and the row
 * scan that places the players above it.
 *
 * The source keys its Map by the string "gx,gy"; a pair of integers is the
 * same key without the formatting. It stores `{ color }`; the three colours
 * are the three materials, mapped back by `ColorOf`.
 */
module Terrain {
  import opened Utils

  datatype Material = Grass | Dirt | Stone

  /** `#2E8B57` grass, `#A0522D` dirt, `#808080` stone. */
  function ColorOf(m: Material): string
  {
    match m
    case Grass => "#2E8B57"
    case Dirt => "#A0522D"
    case Stone => "#808080"
  }

  const BlockSize: real := 50.0
  const NoiseSeed: int := 12345
  const NoiseScale: real := 0.05
  const TerrainAmplitude: int := 4
  const TerrainDepth: int := 10
  const TerrainWidthInBlocks: int := 200
  /** `-Math.floor(terrainWidthInBlocks / 2)` */
  const StartTerrainX: int := -100
  const Player1SpawnX: real := 100.0
  const Player2SpawnX: real := 200.0
  /** `Math.floor(player1SpawnX / blockSize)` */
  const SpawnCheckX: int := 2
  /** Clearance between the found row and the spawn height. */
  const SpawnClearance: real := 100.0

  type Cell = (int, int)

  /** `groundMapRef.current`: the block map shared by all bodies. */
  class GroundMap {
    var cells: map<Cell, Material>

    constructor ()
      ensures cells == map[]
    {
      cells := map[];
    }

    method Clear()
      modifies this
      ensures cells == map[]
    {
      cells := map[];
    }

    method Set(gx: int, gy: int, m: Material)
      modifies this
      ensures cells == old(cells)[(gx, gy) := m]
    {
      cells := cells[(gx, gy) := m];
    }
  }

  /** `Math.floor(v / blockSize)`: the grid row or column holding coordinate `v`. */
  function GridOf(v: real): (g: int)
    ensures g as real * BlockSize <= v < (g + 1) as real * BlockSize
  {
    (v / BlockSize).Floor
  }

  /** A block edge lies in the cell it starts. */
  lemma GridOfEdge(g: int)
    ensures GridOf(g as real * BlockSize) == g
  {
    assert g as real * BlockSize / BlockSize == g as real;
  }

  /** JavaScript's `Math.round`: the nearest integer, halves rounded up. */
  function Round(v: real): (r: int)
    ensures r as real - 0.5 <= v < r as real + 0.5
  {
    (v + 0.5).Floor
  }

  /** Rows a column rises above `minGroundGridY` for a noise value. */
  function HeightVariation(noiseValue: real): int
  {
    Round((noiseValue + 1.0) / 2.0 * TerrainAmplitude as real)
  }

  /** A noise value in [-1, 1] gives a rise between 0 and the amplitude. */
  lemma HeightVariationInRange(noiseValue: real)
    requires -1.0 <= noiseValue <= 1.0
    ensures 0 <= HeightVariation(noiseValue) <= TerrainAmplitude
  {
  }

  /** Material by depth below the column's surface block. */
  function MaterialAtDepth(depth: int): Material
  {
    if depth == 0 then Grass else if depth < 3 then Dirt else Stone
  }

  /** The surface row of column `gx`. */
  function ColumnTopY(noise: PerlinNoise, minGroundGridY: int, gx: int): int
    reads noise, noise.p
    requires noise.Valid()
  {
    minGroundGridY - HeightVariation(noise.Noise(gx as real * NoiseScale))
  }

  /** The surface rows of all 200 columns, `tops[gx - StartTerrainX]`. */
  ghost function ColumnTops(noise: PerlinNoise, minGroundGridY: int): (tops: seq<int>)
    reads noise, noise.p
    requires noise.Valid()
    ensures |tops| == TerrainWidthInBlocks
    ensures forall i :: 0 <= i < TerrainWidthInBlocks ==>
              tops[i] == ColumnTopY(noise, minGroundGridY, StartTerrainX + i)
  {
    seq(TerrainWidthInBlocks, i reads noise, noise.p requires noise.Valid() =>
      ColumnTopY(noise, minGroundGridY, StartTerrainX + i))
  }

  lemma ColumnTopAt(noise: PerlinNoise, minGroundGridY: int, gx: int)
    requires noise.Valid()
    requires StartTerrainX <= gx < StartTerrainX + TerrainWidthInBlocks
    ensures ColumnTops(noise, minGroundGridY)[gx - StartTerrainX] == ColumnTopY(noise, minGroundGridY, gx)
  {
    var i := gx - StartTerrainX;
    assert StartTerrainX + i == gx;
  }

  /** Every column surface lies between `minGroundGridY - 4` and `minGroundGridY`. */
  lemma ColumnTopsInRange(noise: PerlinNoise, minGroundGridY: int)
    requires noise.Valid()
    ensures forall i :: 0 <= i < TerrainWidthInBlocks ==>
              minGroundGridY - TerrainAmplitude <= ColumnTops(noise, minGroundGridY)[i] <= minGroundGridY
  {
    forall i | 0 <= i < TerrainWidthInBlocks
      ensures minGroundGridY - TerrainAmplitude <= ColumnTops(noise, minGroundGridY)[i] <= minGroundGridY
    {
      NoiseBounded(noise, (StartTerrainX + i) as real * NoiseScale);
      HeightVariationInRange(noise.Noise((StartTerrainX + i) as real * NoiseScale));
    }
  }

  /** Cell (gx, gy) belongs to the run of `TerrainDepth` rows under column gx's surface. */
  ghost predicate InColumn(tops: seq<int>, gx: int, gy: int)
    requires |tops| == TerrainWidthInBlocks
  {
    StartTerrainX <= gx < StartTerrainX + TerrainWidthInBlocks &&
    tops[gx - StartTerrainX] <= gy < tops[gx - StartTerrainX] + TerrainDepth
  }

  /**
   * `cells` is exactly the terrain for the column surfaces `tops`: the
   * occupied cells are the column runs, each with the material of its depth.
   */
  ghost predicate IsTerrain(cells: map<Cell, Material>, tops: seq<int>)
  {
    |tops| == TerrainWidthInBlocks &&
    (forall c :: c in cells ==> InColumn(tops, c.0, c.1)) &&
    (forall gx, gy :: InColumn(tops, gx, gy) ==>
       (gx, gy) in cells && cells[(gx, gy)] == MaterialAtDepth(gy - tops[gx - StartTerrainX]))
  }

  /** The terrain of given column surfaces is unique: regenerating it gives the same map. */
  lemma TerrainIsDetermined(m1: map<Cell, Material>, m2: map<Cell, Material>, tops: seq<int>)
    requires IsTerrain(m1, tops) && IsTerrain(m2, tops)
    ensures m1 == m2
  {
    forall c | c in m1 ensures c in m2 && m1[c] == m2[c] {
      assert InColumn(tops, c.0, c.1);
    }
    forall c | c in m2 ensures c in m1 {
      assert InColumn(tops, c.0, c.1);
    }
  }

  /** Each column is capped by one grass block over two dirt blocks; the rest is stone. */
  lemma TerrainLayers(cells: map<Cell, Material>, tops: seq<int>, gx: int, gy: int)
    requires IsTerrain(cells, tops)
    requires (gx, gy) in cells
    ensures InColumn(tops, gx, gy)
    ensures var depth := gy - tops[gx - StartTerrainX];
            (depth == 0 <==> cells[(gx, gy)] == Grass) &&
            (1 <= depth <= 2 <==> cells[(gx, gy)] == Dirt) &&
            (3 <= depth <= TerrainDepth - 1 <==> cells[(gx, gy)] == Stone)
  {
  }

  /** Cells written so far: all columns before `gx`, and rows before `gy` of column `gx`. */
  ghost predicate Built(cells: map<Cell, Material>, tops: seq<int>, gx: int, gy: int)
    requires |tops| == TerrainWidthInBlocks
  {
    (forall c :: c in cells ==>
       InColumn(tops, c.0, c.1) && (c.0 < gx || (c.0 == gx && c.1 < gy))) &&
    (forall x, y :: InColumn(tops, x, y) && (x < gx || (x == gx && y < gy)) ==>
       (x, y) in cells && cells[(x, y)] == MaterialAtDepth(y - tops[x - StartTerrainX]))
  }

  /** Cells written once the columns before `gx` are complete. */
  ghost predicate ColumnsBuilt(cells: map<Cell, Material>, tops: seq<int>, gx: int)
    requires |tops| == TerrainWidthInBlocks
  {
    (forall c :: c in cells ==> InColumn(tops, c.0, c.1) && c.0 < gx) &&
    (forall x, y :: InColumn(tops, x, y) && x < gx ==>
       (x, y) in cells && cells[(x, y)] == MaterialAtDepth(y - tops[x - StartTerrainX]))
  }

  lemma StartColumn(cells: map<Cell, Material>, tops: seq<int>, gx: int)
    requires |tops| == TerrainWidthInBlocks
    requires StartTerrainX <= gx < StartTerrainX + TerrainWidthInBlocks
    requires ColumnsBuilt(cells, tops, gx)
    ensures Built(cells, tops, gx, tops[gx - StartTerrainX])
  {
  }

  lemma FinishColumn(cells: map<Cell, Material>, tops: seq<int>, gx: int)
    requires |tops| == TerrainWidthInBlocks
    requires StartTerrainX <= gx < StartTerrainX + TerrainWidthInBlocks
    requires Built(cells, tops, gx, tops[gx - StartTerrainX] + TerrainDepth)
    ensures ColumnsBuilt(cells, tops, gx + 1)
  {
  }

  lemma AddCell(cells: map<Cell, Material>, tops: seq<int>, gx: int, gy: int)
    requires |tops| == TerrainWidthInBlocks
    requires StartTerrainX <= gx < StartTerrainX + TerrainWidthInBlocks
    requires tops[gx - StartTerrainX] <= gy < tops[gx - StartTerrainX] + TerrainDepth
    requires Built(cells, tops, gx, gy)
    ensures (gx, gy) !in cells
    ensures Built(cells[(gx, gy) := MaterialAtDepth(gy - tops[gx - StartTerrainX])], tops, gx, gy + 1)
  {
  }

  lemma AllColumnsBuilt(cells: map<Cell, Material>, tops: seq<int>)
    requires |tops| == TerrainWidthInBlocks
    requires ColumnsBuilt(cells, tops, StartTerrainX + TerrainWidthInBlocks)
    ensures IsTerrain(cells, tops)
  {
  }

  /** The inner loop: column `gx` gets its `TerrainDepth` blocks, surface first. */
  method FillColumn(ground: GroundMap, ghost tops: seq<int>, gx: int, columnTopY: int)
    requires |tops| == TerrainWidthInBlocks
    requires StartTerrainX <= gx < StartTerrainX + TerrainWidthInBlocks
    requires columnTopY == tops[gx - StartTerrainX]
    requires ColumnsBuilt(ground.cells, tops, gx)
    modifies ground
    ensures ColumnsBuilt(ground.cells, tops, gx + 1)
    ensures |ground.cells| == |old(ground.cells)| + TerrainDepth
  {
    StartColumn(ground.cells, tops, gx);
    var gy := columnTopY;
    while gy < columnTopY + TerrainDepth
      invariant columnTopY <= gy <= columnTopY + TerrainDepth
      invariant Built(ground.cells, tops, gx, gy)
      invariant |ground.cells| == |old(ground.cells)| + (gy - columnTopY)
    {
      var depth := gy - columnTopY;
      AddCell(ground.cells, tops, gx, gy);   // the cell is new: each is written once
      ground.Set(gx, gy, MaterialAtDepth(depth));
      gy := gy + 1;
    }
    FinishColumn(ground.cells, tops, gx);
  }

  /** The surface row of column `gx`, from the noise sample at `gx * 0.05`. */
  method SurfaceRow(noise: PerlinNoise, minGroundGridY: int, gx: int) returns (columnTopY: int)
    requires noise.Valid()
    ensures columnTopY == ColumnTopY(noise, minGroundGridY, gx)
  {
    var noiseValue := noise.Noise(gx as real * NoiseScale);
    var scaledNoise := (noiseValue + 1.0) / 2.0;
    var columnHeightVariation := Round(scaledNoise * TerrainAmplitude as real);
    columnTopY := minGroundGridY - columnHeightVariation;
  }

  /**
   * The generation loop: the map is cleared, then every column of the 200 is
   * filled with `TerrainDepth` blocks from its surface down. Every written cell
   * is new, so the map ends with exactly 200 * 10 entries.
   */
  method GenerateTerrain(ground: GroundMap, noise: PerlinNoise, minGroundGridY: int)
    requires noise.Valid()
    modifies ground
    ensures IsTerrain(ground.cells, ColumnTops(noise, minGroundGridY))
    ensures |ground.cells| == TerrainWidthInBlocks * TerrainDepth
  {
    ghost var tops := ColumnTops(noise, minGroundGridY);
    ground.Clear();
    var gx := StartTerrainX;
    while gx < StartTerrainX + TerrainWidthInBlocks
      invariant StartTerrainX <= gx <= StartTerrainX + TerrainWidthInBlocks
      invariant ColumnsBuilt(ground.cells, tops, gx)
      invariant |ground.cells| == (gx - StartTerrainX) * TerrainDepth
      invariant unchanged(noise, noise.p)
    {
      var columnTopY := SurfaceRow(noise, minGroundGridY, gx);
      ColumnTopAt(noise, minGroundGridY, gx);
      FillColumn(ground, tops, gx, columnTopY);
      gx := gx + 1;
    }
    assert gx - StartTerrainX == TerrainWidthInBlocks;
    AllColumnsBuilt(ground.cells, tops);
    assert tops == ColumnTops(noise, minGroundGridY);
  }

  /**
   * The spawn search: rows from `minGroundGridY + 10` up to `minGroundGridY - 4`
   * in the spawn column, stopping at the first occupied one, which is the
   * largest occupied row of that range. Without one it falls back to
   * `minGroundGridY`. The spawn height is that row's top less 100.
   */
  method FindSpawn(ground: GroundMap, minGroundGridY: int)
    returns (spawnGridY: int, foundSpawnY: bool, finalSpawnY: real)
    ensures foundSpawnY <==> exists gy :: minGroundGridY - TerrainAmplitude <= gy <= minGroundGridY + TerrainDepth
                                       && (SpawnCheckX, gy) in ground.cells
    ensures foundSpawnY ==> (SpawnCheckX, spawnGridY) in ground.cells
                            && minGroundGridY - TerrainAmplitude <= spawnGridY <= minGroundGridY + TerrainDepth
                            && forall gy :: spawnGridY < gy <= minGroundGridY + TerrainDepth ==>
                                              (SpawnCheckX, gy) !in ground.cells
    ensures !foundSpawnY ==> spawnGridY == minGroundGridY
    ensures finalSpawnY == spawnGridY as real * BlockSize - SpawnClearance
  {
    foundSpawnY := false;
    spawnGridY := minGroundGridY;
    var gy := minGroundGridY + TerrainDepth;
    while gy >= minGroundGridY - TerrainAmplitude
      invariant minGroundGridY - TerrainAmplitude - 1 <= gy <= minGroundGridY + TerrainDepth
      invariant forall g :: gy < g <= minGroundGridY + TerrainDepth ==> (SpawnCheckX, g) !in ground.cells
      invariant !foundSpawnY && spawnGridY == minGroundGridY
    {
      if (SpawnCheckX, gy) in ground.cells {
        spawnGridY := gy;
        foundSpawnY := true;
        break;
      }
      gy := gy - 1;
    }
    finalSpawnY := (if foundSpawnY then spawnGridY as real * BlockSize else minGroundGridY as real * BlockSize)
                   - SpawnClearance;
  }

  /** Index of the spawn column in the column-surface sequence. */
  const SpawnColumn: int := SpawnCheckX - StartTerrainX

  /**
   * When the spawn column's rise is in [0, 4], the scan always succeeds, and
   * the row it returns is the column's BOTTOM block `top + 9`, not its surface:
   * the scan starts below the terrain and moves up.
   */
  lemma SpawnRowIsColumnBottom(cells: map<Cell, Material>, tops: seq<int>, minGroundGridY: int, row: int)
    requires IsTerrain(cells, tops)
    requires minGroundGridY - TerrainAmplitude <= tops[SpawnColumn] <= minGroundGridY
    requires (SpawnCheckX, row) in cells
    requires minGroundGridY - TerrainAmplitude <= row <= minGroundGridY + TerrainDepth
    requires forall gy :: row < gy <= minGroundGridY + TerrainDepth ==> (SpawnCheckX, gy) !in cells
    ensures row == tops[SpawnColumn] + TerrainDepth - 1
  {
    var bottom := tops[SpawnColumn] + TerrainDepth - 1;
    assert InColumn(tops, SpawnCheckX, bottom);
    assert (SpawnCheckX, bottom) in cells;
    assert InColumn(tops, SpawnCheckX, row);
  }

  /** With the spawn column's rise in [0, 4] some row of the scan range is occupied. */
  lemma SpawnScanSucceeds(cells: map<Cell, Material>, tops: seq<int>, minGroundGridY: int)
    requires IsTerrain(cells, tops)
    requires minGroundGridY - TerrainAmplitude <= tops[SpawnColumn] <= minGroundGridY
    ensures exists gy :: minGroundGridY - TerrainAmplitude <= gy <= minGroundGridY + TerrainDepth
                         && (SpawnCheckX, gy) in cells
  {
    var top := tops[SpawnColumn];
    assert InColumn(tops, SpawnCheckX, top);
    assert (SpawnCheckX, top) in cells;
  }
}
