/**
 * The fill loop of `main` (src/main.rs:270-345): every cell of every chunk
 * of the finished grid that lies in at least one pushed AABB is turned into
 * a terrain block.  Eight exact colours give fixed blocks; any other colour
 * falls back on the cell's flags.
 *
 * `thread_rng().gen_bool(0.5)` becomes the parameter `coin`, one value per
 * world position, and the `set_block` calls become the returned map from
 * world position to block.
 */
module Blocks {
  import opened Geometry
  import opened Grid
  import opened Render

  /** The `BlockKind`s the classifier produces. */
  datatype BlockKind = Water | Lava | GlowingRock | Misc

  /** The `SpriteKind`s the classifier produces. */
  datatype SpriteKind = Empty | StreetLamp | Liana | CookingPot | JungleRedGrass | JungleFern | DungeonChest4 | FireBowlGround

  /** The block constructors the classifier calls, each taken as a distinct value. */
  datatype Block =
    | EmptyBlock                          // `Block::empty()`
    | OfKind(kind: BlockKind, color: Rgb) // `Block::new(kind, color)`
    | Air(sprite: SpriteKind)             // `Block::air(sprite)`
    | InWater(sprite: SpriteKind)         // `Block::water(sprite)`

  const WATER_RGB := Rgb(4, 119, 191)
  const LAVA_RGB := Rgb(170, 56, 56)
  const STREET_LAMP_RGB := Rgb(243, 255, 113)
  const LIANA_RGB := Rgb(0, 200, 80)
  const COOKING_POT_RGB := Rgb(191, 255, 0)
  const JUNGLE_PLANT_RGB := Rgb(63, 96, 12)
  const CHEST_RGB := Rgb(144, 31, 31)
  const FIRE_BOWL_RGB := Rgb(194, 231, 147)

  /** The colours with a fixed block. */
  const FIXED_COLORS: set<Rgb> :=
    {WATER_RGB, LAVA_RGB, STREET_LAMP_RGB, LIANA_RGB, COOKING_POT_RGB, JUNGLE_PLANT_RGB, CHEST_RGB, FIRE_BOWL_RGB}

  /** `Rgb::default()`. */
  const BLACK := Rgb(0, 0, 0)

  /**
   * The `match cell.get_color()` of src/main.rs:276-342: an empty cell gives
   * `Block::empty()`; a listed colour its fixed block, with `coin` choosing
   * between the two jungle plants; any other colour the first of hollow,
   * glowy, shiny that is set, else a misc block of the cell's colour.
   */
  function Classify(cell: Cell, coin: bool): Block
  {
    match cell
    case Empty => EmptyBlock
    case Filled(color, glowy, shiny, hollow) =>
      if color == WATER_RGB then OfKind(Water, BLACK)
      else if color == LAVA_RGB then OfKind(Lava, Rgb(255, 65, 0))
      else if color == STREET_LAMP_RGB then Air(StreetLamp)
      else if color == LIANA_RGB then Air(Liana)
      else if color == COOKING_POT_RGB then Air(CookingPot)
      else if color == JUNGLE_PLANT_RGB then (if coin then Air(JungleRedGrass) else Air(JungleFern))
      else if color == CHEST_RGB then Air(DungeonChest4)
      else if color == FIRE_BOWL_RGB then Air(FireBowlGround)
      else if hollow then Air(SpriteKind.Empty)
      else if glowy then OfKind(GlowingRock, color)
      else if shiny then InWater(SpriteKind.Empty)
      else OfKind(Misc, color)
  }

  /** Only an empty cell becomes `Block::empty()`. */
  lemma ClassifyEmptyIff(cell: Cell, coin: bool)
    ensures Classify(cell, coin) == EmptyBlock <==> cell == Cell.Empty
  {
  }

  /** The coin matters for exactly one colour, and only picks between the two jungle plants. */
  lemma CoinOnlyForJunglePlants(cell: Cell)
    ensures Classify(cell, true) != Classify(cell, false) <==> cell.Filled? && cell.color == JUNGLE_PLANT_RGB
    ensures Classify(cell, true) != Classify(cell, false) ==>
      Classify(cell, true) == Air(JungleRedGrass) && Classify(cell, false) == Air(JungleFern)
  {
  }

  /** A listed colour gives its block whatever the cell's flags. */
  lemma FixedColorsIgnoreFlags(c: Rgb, coin: bool, glowy: bool, shiny: bool, hollow: bool, glowy': bool, shiny': bool, hollow': bool)
    requires c in FIXED_COLORS
    ensures Classify(Filled(c, glowy, shiny, hollow), coin) == Classify(Filled(c, glowy', shiny', hollow'), coin)
  {
  }

  /** The colour (4, 119, 191) always gives a water block, whatever the flags. */
  lemma WaterColorIsWater(coin: bool, glowy: bool, shiny: bool, hollow: bool)
    ensures Classify(Filled(WATER_RGB, glowy, shiny, hollow), coin) == OfKind(Water, BLACK)
    ensures Classify(Filled(WATER_RGB, glowy, shiny, hollow), coin) != OfKind(Misc, WATER_RGB)
  {
  }

  /**
   * Any other colour is classified by the flags alone, hollow before glowy
   * before shiny: each outcome happens exactly under its flag combination,
   * and only the glowing and misc outcomes keep the cell's colour.
   */
  lemma FallbackPriority(c: Rgb, coin: bool, glowy: bool, shiny: bool, hollow: bool)
    requires c !in FIXED_COLORS
    ensures var b := Classify(Filled(c, glowy, shiny, hollow), coin);
      && (b == Air(SpriteKind.Empty) <==> hollow)
      && (b == OfKind(GlowingRock, c) <==> !hollow && glowy)
      && (b == InWater(SpriteKind.Empty) <==> !hollow && !glowy && shiny)
      && (b == OfKind(Misc, c) <==> !hollow && !glowy && !shiny)
      && (b.OfKind? ==> b.color == c)
  {
  }

  /**
   * End to end for a rendered voxel of an unlisted colour: the cell written
   * for it never has the glowy or shiny flag, so it becomes the empty air
   * sprite when its palette index is 16 and a misc block of its colour
   * otherwise.
   */
  lemma RenderedVoxelBlock(palette: seq<Rgb>, v: Voxel, coin: bool)
    requires v.i < |palette| && palette[v.i] !in FIXED_COLORS
    ensures Classify(CellFor(palette, v), coin) == if v.i == 16 then Air(SpriteKind.Empty) else OfKind(Misc, palette[v.i])
  {
    FallbackPriority(palette[v.i], coin, false, false, v.i == 16);
  }

  /** A rendered voxel never becomes glowing rock or a water sprite, whatever its colour. */
  lemma RenderedNeverGlowsOrShines(palette: seq<Rgb>, v: Voxel, coin: bool)
    requires v.i < |palette|
    ensures Classify(CellFor(palette, v), coin) != OfKind(GlowingRock, palette[v.i])
    ensures Classify(CellFor(palette, v), coin) != InWater(SpriteKind.Empty)
  {
  }

  /**
   * Once every filled cell lies in one of the AABBs (as `SceneCovered`
   * shows for `new_from`), the fill loop writes a block other than
   * `EmptyBlock` for each of them: no placed voxel is dropped by the AABB
   * filter.
   */
  lemma CoveredCellsBecomeBlocks(chunks: Chunks, aabbs: seq<Aabb>, coin: Vec3 -> bool, p: Vec3)
    requires Covered(chunks, aabbs)
    requires FilledAt(chunks, p)
    ensures CellAt(chunks, p).Some? && InAnyAabb(aabbs, p)
    ensures Classify(CellAt(chunks, p).value, coin(p)) != EmptyBlock
  {
    ClassifyEmptyIff(CellAt(chunks, p).value, coin(p));
  }

  /**
   * `for (pos, cell) in chunk.full_vol_iter()` for the chunk under `key`:
   * add a block at `key_pos(key) + pos` for every cell in some AABB, to a map
   * that holds nothing of this chunk yet.
   */
  method FillChunk(key: Vec3, chunk: Chunk, aabbs: seq<Aabb>, coin: Vec3 -> bool, acc: map<Vec3, Block>)
    returns (placed: map<Vec3, Block>)
    requires forall p :: p in acc ==> PosKey(p) != key
    ensures forall p :: p in placed <==> p in acc || (PosKey(p) == key && InAnyAabb(aabbs, p))
    ensures forall p :: p in acc ==> placed[p] == acc[p]
    ensures forall p :: p in placed && p !in acc ==> placed[p] == Classify(chunk.Get(ChunkOffs(p)), coin(p))
  {
    placed := acc;
    var x := 0;
    while x < CHUNK_SIZE
      invariant 0 <= x <= CHUNK_SIZE
      invariant forall p :: p in placed <==> p in acc || (PosKey(p) == key && ChunkOffs(p).x < x && InAnyAabb(aabbs, p))
      invariant forall p :: p in acc ==> placed[p] == acc[p]
      invariant forall p :: p in placed && p !in acc ==> placed[p] == Classify(chunk.Get(ChunkOffs(p)), coin(p))
    {
      placed := FillPlane(key, chunk, aabbs, coin, placed, x);
      x := x + 1;
    }
    forall p | PosKey(p) == key
      ensures ChunkOffs(p).x < CHUNK_SIZE
    {
      PosSplits(p);
    }
  }

  /** The cells of the chunk under `key` whose first local coordinate is `x`, for a map holding none of them. */
  method FillPlane(key: Vec3, chunk: Chunk, aabbs: seq<Aabb>, coin: Vec3 -> bool, acc: map<Vec3, Block>, x: int)
    returns (placed: map<Vec3, Block>)
    requires 0 <= x < CHUNK_SIZE
    requires forall p :: p in acc && PosKey(p) == key ==> ChunkOffs(p).x != x
    ensures forall p :: p in placed <==> p in acc || (PosKey(p) == key && ChunkOffs(p).x == x && InAnyAabb(aabbs, p))
    ensures forall p :: p in acc ==> placed[p] == acc[p]
    ensures forall p :: p in placed && p !in acc ==> placed[p] == Classify(chunk.Get(ChunkOffs(p)), coin(p))
  {
    placed := acc;
    var y := 0;
    while y < CHUNK_SIZE
      invariant 0 <= y <= CHUNK_SIZE
      invariant forall p :: p in placed <==> p in acc || (PosKey(p) == key && ChunkOffs(p).x == x && ChunkOffs(p).y < y && InAnyAabb(aabbs, p))
      invariant forall p :: p in acc ==> placed[p] == acc[p]
      invariant forall p :: p in placed && p !in acc ==> placed[p] == Classify(chunk.Get(ChunkOffs(p)), coin(p))
    {
      placed := FillRow(key, chunk, aabbs, coin, placed, x, y);
      y := y + 1;
    }
    forall p | PosKey(p) == key
      ensures ChunkOffs(p).y < CHUNK_SIZE
    {
      PosSplits(p);
    }
  }

  /** The cells of the chunk under `key` at local `(x, y, 0..32)`, for a map holding none of them. */
  method FillRow(key: Vec3, chunk: Chunk, aabbs: seq<Aabb>, coin: Vec3 -> bool, acc: map<Vec3, Block>, x: int, y: int)
    returns (placed: map<Vec3, Block>)
    requires 0 <= x < CHUNK_SIZE && 0 <= y < CHUNK_SIZE
    requires forall p :: p in acc && PosKey(p) == key ==> ChunkOffs(p).x != x || ChunkOffs(p).y != y
    ensures forall p :: p in placed <==> p in acc || (PosKey(p) == key && ChunkOffs(p).x == x && ChunkOffs(p).y == y && InAnyAabb(aabbs, p))
    ensures forall p :: p in acc ==> placed[p] == acc[p]
    ensures forall p :: p in placed && p !in acc ==> placed[p] == Classify(chunk.Get(ChunkOffs(p)), coin(p))
  {
    placed := acc;
    var z := 0;
    while z < CHUNK_SIZE
      invariant 0 <= z <= CHUNK_SIZE
      invariant forall p :: p in placed <==> p in acc || (PosKey(p) == key && ChunkOffs(p).x == x && ChunkOffs(p).y == y && ChunkOffs(p).z < z && InAnyAabb(aabbs, p))
      invariant forall p :: p in acc ==> placed[p] == acc[p]
      invariant forall p :: p in placed && p !in acc ==> placed[p] == Classify(chunk.Get(ChunkOffs(p)), coin(p))
    {
      var local := Vec3(x, y, z);
      var wpos := KeyPos(key).Plus(local);
      KeyPosSplits(key, local);
      forall p | PosKey(p) == key && ChunkOffs(p) == local
        ensures p == wpos
      {
        PosSplits(p);
      }
      AnyContainsIff(aabbs, wpos);
      if AnyContains(aabbs, wpos) {
        placed := placed[wpos := Classify(chunk.Get(local), coin(wpos))];
      }
      z := z + 1;
    }
    forall p | PosKey(p) == key
      ensures ChunkOffs(p).z < CHUNK_SIZE
    {
      PosSplits(p);
    }
  }

  /**
   * The loop `for (key, chunk) in vox.iter()` of `main`: the blocks written,
   * by world position.  Exactly the cells of the grid that lie in some AABB
   * are written, each with its classification.
   */
  method Fill(chunks: Chunks, aabbs: seq<Aabb>, coin: Vec3 -> bool) returns (placed: map<Vec3, Block>)
    ensures forall p :: p in placed <==> CellAt(chunks, p).Some? && InAnyAabb(aabbs, p)
    ensures forall p :: p in placed ==> placed[p] == Classify(CellAt(chunks, p).value, coin(p))
  {
    placed := map[];
    var keys := chunks.Keys;
    while keys != {}
      invariant keys <= chunks.Keys
      invariant forall p :: p in placed <==> PosKey(p) in chunks && PosKey(p) !in keys && InAnyAabb(aabbs, p)
      invariant forall p :: p in placed ==> placed[p] == Classify(CellAt(chunks, p).value, coin(p))
      decreases |keys|
    {
      var key :| key in keys;
      placed := FillChunk(key, chunks[key], aabbs, coin, placed);
      keys := keys - {key};
    }
  }
}
