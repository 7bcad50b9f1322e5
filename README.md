# veloren_vox_placer in Dafny

A verified model of the core of `veloren_vox_placer`. This batch tool takes a
MagicaVoxel (`.vox`) scene and places it into a sparse grid of 32×32×32
chunks. It then turns every cell inside the placed models' bounding boxes
into a Veloren terrain block. The model covers five parts of `src/main.rs`:

- **The `_r` rotation decoder** (`rotation.dfy`). It turns a frame's rotation byte into a 3×3 integer matrix. There are two versions:
  - `DecodeAsWritten` is the closure exactly as written.
  - `Decode` has the guard the format calls for, and the rest of the model uses it.
- **`insert_scene` and `new_from`** (`scene.dfy`). These are a depth-first walk over the scene's node table that carries the accumulated rotation and translation.
  - `Visit` lists the models the walk renders and the pose each one gets.
  - `Build` renders such a list.
  - The recursive method `InsertScene` is proved to compute `Build` of `Visit`.
- **`render_model`** (`render.dfy`). It computes the rotated size and the centred minimum corner, pushes the AABB, inserts every chunk the footprint touches, and writes one cell per voxel.
  - The central result is `RenderNeverFails`: for a rotation with signed unit rows and a model whose voxels lie inside its size, every `set(..).unwrap()` lands in an existing chunk.
- **The grid `SparseScene`** (`grid.dfy`). It is a class over a map from chunk key to chunk.
  - `pos_key` is floor division by 32 per axis.
  - `key_pos` is multiplication by 32.
- **The fill loop and block classifier of `main`** (`blocks.dfy`). Cells outside every AABB are skipped. Empty cells give `Block::empty()`. Eight exact colours give fixed blocks. Every other colour falls back on the hollow, glowy and shiny flags.
  - `SceneCovered` shows that every filled cell lies in some pushed AABB, so the filter never drops a placed voxel.

The vector and matrix algebra the code gets from `vek` lives in `geometry.dfy`. This includes the facts about signed permutation matrices: closure under the product, orthogonality, and determinant ±1.

Panics are modelled as values:
- A node index outside the table and a write into a missing chunk make the specification functions return `None`.
- The same cases make the methods return `ok == false`.

Integers are unbounded.

The model follows the code on these points:
- The pushed AABB is `pos ..= pos + size`, not `pos + size - 1` (src/main.rs:68-71). With the inclusive `contains_point`, the box is one cell larger than the footprint on each axis.
- Boxes are only appended, never merged.
- There is no colour replacement table and no weighted random choice. The eight colours are hard-coded, and one coin flip picks between the two jungle plants (src/main.rs:279-325). So the colour (4, 119, 191) always gives water (`WaterColorIsWater`), never a misc block.
- The centring division truncates toward zero (`Half`). `CornerIsFloorDivision` proves that its numerator is never negative, so it equals floor division.

## Model

| member | source | states |
|---|---|---|
| Geometry.SignedPermIsOrthogonal | src/main.rs:138-154 | A matrix whose rows are ±1 on distinct axes has ±1 columns too, times its transpose is the identity, and has determinant ±1 |
| Geometry.DetSignedPerm | src/main.rs:138-154 | A signed permutation has determinant 1 or -1 |
| Geometry.TimesKeepsRowsSignedUnit | src/main.rs:163 | `rot *= r` keeps every row a signed unit vector; row i of the product lies on the axis of the row of `r` that row i of `rot` selects |
| Geometry.TimesKeepsSignedPerm | src/main.rs:163 | Signed permutations are closed under the product `rot * r` |
| Geometry.TimesApply | src/main.rs:162-163 | `(a * b) * v == a * (b * v)` |
| Geometry.ApplyPlus | src/main.rs:162 | Matrix application distributes over vector addition |
| Geometry.AnyContains | src/main.rs:274 | `aabbs.iter().any(..)` over `contains_point`, front to back; stated by `AnyContainsIff` |
| Geometry.AnyContainsIff | src/main.rs:274 | The front-to-back `aabbs.iter().any(contains_point)` is true exactly when some box contains the point |
| Geometry.InAnyAabbGrows | src/main.rs:68 | Pushing more boxes never uncovers a covered point |
| Rotation.DecodeAsWritten | src/main.rs:131-159 | The `_r` closure as written: its guard, its three selectors and sign bits, with the `rows[3]` panic as `IndexOutOfBounds`; stated by `AsWrittenDiffersOnlyOnGap`, `AsWrittenPanics`, `AsWrittenSingular`, `WrittenMatrixAxes` and `AsWrittenCounterexamples` |
| Rotation.Decode | src/main.rs:131-159 | The `_r` decoder with the guard the format calls for; stated by `DecodeAcceptance`, `DecodeIsSignedPerm` and `IdentityEncoding` |
| Rotation.FrameRotation | src/main.rs:129-160 | A frame's rotation: the decoded byte, or the identity (`unwrap_or`) when `_r` is missing, unparsable or rejected, with the corrected `_r` decoder; stated by `FrameRotationIsSignedPerm` |
| Rotation.ThirdSelectorIsRemaining | src/main.rs:140-142 | When the first two selectors are below 3 and differ, the third selector (the complement of `n` or `n >> 2`, masked to two bits) is the remaining axis |
| Rotation.DecodeAcceptance | src/main.rs:133-158 | The corrected decoder accepts a byte exactly when the written closure yields a matrix that is a signed permutation. On those bytes both give the same matrix |
| Rotation.AcceptedAsWritten | src/main.rs:139-154 | An accepted byte passes the written guard `n & 3 != 3 && n >> 2 != 3` and gets the same matrix from it |
| Rotation.WrittenMatrixAxes | src/main.rs:139-154 | Every matrix the written closure yields has signed unit rows on the axes its three selectors name. It is a signed permutation only when the first two selectors differ |
| Rotation.DecodeIsSignedPerm | src/main.rs:133-154 | An accepted byte decodes to a signed permutation. Row i reads the axis its selector names, with the sign of bit 4+i. The matrix is orthogonal with determinant ±1 |
| Rotation.FrameRotationIsSignedPerm | src/main.rs:129-160 | A missing or unparsable `_r`, a rejected byte and an accepted byte all give a signed permutation |
| Rotation.AsWrittenDiffersOnlyOnGap | src/main.rs:139-158 | The written guard and the corrected one agree except on equal selectors below 3 and on a second selector of 3 with high bits set. On those bytes the written closure never answers `None` |
| Rotation.AsWrittenCounterexamples | src/main.rs:139-154 | Bytes 0 and 28 pass the written guard and index `rows[3]`. Byte 5 passes and yields a matrix with determinant 0. The corrected decoder rejects all three |
| Rotation.AsWrittenPanics | src/main.rs:139-154 | The written closure indexes `rows[3]` exactly on the bytes that pass its guard and have low four bits clear or a second selector of 3 |
| Rotation.AsWrittenSingular | src/main.rs:139-154 | The written closure yields a matrix that is not a signed permutation exactly when the low four bits are 5 or 10, and that matrix has determinant 0 |
| Rotation.IdentityEncoding | src/main.rs:133-154 | Byte 4 decodes to the identity |
| Grid.PosKey | src/main.rs:74-75 | `pos_key`: floor division by 32 on each axis; stated by `PosSplits`, `KeyPosSplits` and `PosKeyMonotone` |
| Grid.KeyPos | src/main.rs:273 | `key_pos`: the chunk's minimum corner, 32 times the key; stated by `PosSplits` and `KeyPosSplits` |
| Grid.WriteCell | src/main.rs:92-99 | `set` on the chunk map, `None` for the missing-chunk error; stated by `WriteCellEffect` and `SparseScene.Set` |
| Grid.PosSplits | src/main.rs:17-23 | Every position is `key_pos(pos_key(p))` plus an offset inside a 32³ chunk |
| Grid.KeyPosSplits | src/main.rs:272-273 | `key_pos(key) + local` lies in chunk `key` at offset `local`, for every local position of a chunk |
| Grid.PosKeyMonotone | src/main.rs:74-75 | `pos_key` is monotone on every axis |
| Grid.WriteCellEffect | src/main.rs:92-99 | `set` succeeds exactly when the chunk exists. It then changes only the written cell and no chunk key |
| Grid.Allocate | src/main.rs:76-86 | After the insertion loop every key of the range is present. Missing keys hold an empty chunk. Existing chunks are unchanged |
| Grid.AllocateIdempotent | src/main.rs:80-83 | Running the insertion loop over the same range twice changes nothing the second time |
| Grid.AllocateKeepsCells | src/main.rs:80-83 | Cells already written keep their value through chunk insertion |
| Grid.AllocateAddsNoFilled | src/main.rs:82 | Chunk insertion adds only empty cells |
| Grid.SparseScene.constructor | src/main.rs:41-44 | A new grid has no chunk |
| Grid.SparseScene.Insert | src/main.rs:81-82 | `insert` puts the chunk under the key and changes nothing else |
| Grid.SparseScene.Set | src/main.rs:92-99 | `set` fails exactly when the chunk is missing, and then leaves the grid unchanged. Otherwise the grid becomes `WriteCell` of the old one |
| Render.RotatedSize | src/main.rs:60-61 | `rot.map(abs) * size`; stated by `RotatedSizeReadsAxes` and `RotatedSizePermutes` |
| Render.MinCorner | src/main.rs:63-67 | The minimum corner `trans - (size + f.min(0) * -1) / 2` with truncating division; stated by `CornerIsFloorDivision`, `IdentityLayout` and `VoxelInFootprint` |
| Render.VoxelOffset | src/main.rs:87-89 | The per-axis re-anchoring of `rot * size`; stated by `AxisPlacement` and `IdentityLayout` |
| Render.LayoutOf | src/main.rs:59-89 | Rotated size, minimum corner and voxel offset of one render; stated by `AxisPlacement`, `VoxelInFootprint` and `IdentityLayout` |
| Render.AabbOf | src/main.rs:68-71 | The pushed box `pos ..= pos + size`; stated by `RenderedInsideAabb` and `RenderModel` |
| Render.VoxelPos | src/main.rs:94-96 | Where a voxel is written: `rot * v + offset + pos`; stated by `VoxelInFootprint` and `IdentityPlacement` |
| Render.CellFor | src/main.rs:97 | The written cell: the palette colour, no glowy or shiny flag, hollow when the index is 16; stated by `PaintLastWriteWins` and `Blocks.RenderedVoxelBlock` |
| Render.Paint | src/main.rs:90-101 | The voxel loop, skipping voxels whose index is outside the palette, `None` when a `set` panics; stated by `PaintSucceeds`, `PaintKeepsKeys`, `PaintLeavesOthers`, `PaintLastWriteWins`, `PaintFillsOnlyVoxels` and `PaintVoxels` |
| Render.RenderSpec | src/main.rs:51-102 | The whole of `render_model` on the chunk map: chunk insertion, then the voxel loop; stated by `RenderNeverFails`, `RenderKeepsCovered` and `RenderModel` |
| Render.CornerIsFloorDivision | src/main.rs:60-67 | The rotated size is non-negative. The truncating `/ 2` of the corner equals floor division |
| Render.AxisPlacement | src/main.rs:87-96 | On each axis, a voxel coordinate inside the size lands between 0 and the rotated size above the corner, after `Reanchor` of `rot * size` |
| Render.VoxelInFootprint | src/main.rs:87-96 | Every voxel inside the model lands in `pos ..= pos + size - 1` under any rotation with signed unit rows |
| Render.RenderedInsideAabb | src/main.rs:68-71 | Every written voxel lies in the AABB the same render pushed |
| Render.PaintSucceeds | src/main.rs:90-101 | The voxel loop never panics when the chunk of every in-range voxel is present |
| Render.RenderNeverFails | src/main.rs:51-102 | For a rotation with signed unit rows and a well-formed model, `render_model` never panics, whatever grid it starts from |
| Render.PaintKeepsKeys | src/main.rs:90-101 | The voxel loop adds and removes no chunk |
| Render.PaintLeavesOthers | src/main.rs:90-101 | Cells that no in-range voxel maps to keep their value |
| Render.PaintLastWriteWins | src/main.rs:90-101 | A voxel's cell holds its palette colour with the index-16 flag, unless a later voxel maps to the same cell |
| Render.PaintFillsOnlyVoxels | src/main.rs:90-101 | A cell filled after the voxel loop was filled before, or is the position of an in-range voxel |
| Render.RenderKeepsCovered | src/main.rs:51-102 | If every filled cell lay in a pushed AABB before a render, the same holds after it, with the new box appended |
| Render.RotatedSizePermutes | src/main.rs:60-61 | For a signed permutation, the absolute rotation times the size is the model size permuted by the rotation's axes |
| Render.RotatedSizeReadsAxes | src/main.rs:60-61 | With signed unit rows, component i of `rot.map(abs) * size` is the model size along the axis row i reads |
| Render.IdentityLayout | src/main.rs:59-89 | Without rotation and for a model of positive size on every axis, the layout is the model size, the corner `trans - size / 2` and a zero voxel offset |
| Render.IdentityPlacement | src/main.rs:59-96 | Without rotation, the footprint is the model size and the corner is `trans - size / 2`. Each voxel lands at `pos + v` |
| Render.InsertChunks | src/main.rs:74-86 | The triple insertion loop leaves the grid equal to `Allocate` of the old grid over `pos_key(pos) ..= pos_key(pos + size - 1)` |
| Render.InsertPlane | src/main.rs:77-85 | The `y` loop for one `x` inserts an empty chunk exactly under the missing keys of the range with that `x`, and keeps every existing chunk |
| Render.InsertRow | src/main.rs:78-84 | The `z` loop for one `(x, y)` inserts an empty chunk exactly under the missing keys of the range with that `x` and `y`, and keeps every existing chunk |
| Render.PaintVoxels | src/main.rs:90-101 | The voxel loop succeeds exactly when `Paint` does, and then leaves the grid equal to it |
| Render.RenderModel | src/main.rs:51-102 | Appends exactly the AABB `pos ..= pos + size`. It succeeds exactly when `RenderSpec` does, and leaves the grid equal to it |
| SceneGraph.Enter | src/main.rs:116-164 | The pose below a transform node: `trans += rot * t`, then `rot *= r`, from the first frame only, with the corrected `_r` decoder; stated by `EnterComposes` and `EnterKeepsSignedPerm` |
| SceneGraph.Visit | src/main.rs:113-196 | The walk of `insert_scene` from one node: the placements it renders in order, `None` on an index outside the table, with the corrected `_r` decoder; stated by `VisitKeepsSignedPerm`, `VisitRendersSceneModels` and `InsertScene` |
| SceneGraph.VisitAll | src/main.rs:176-188 | A group's children walked from the same pose, one after another, with the corrected `_r` decoder; stated by `VisitAllAppend`, `VisitAllKeepsSignedPerm` and `InsertChildren` |
| SceneGraph.ShapePlacements | src/main.rs:189-195 | A shape node's placements, skipping ids with no model; stated by `ShapeRendersNamedModels`, `ShapePrefix` and `InsertShape` |
| SceneGraph.RenderPlacement | src/main.rs:192 | One `render_model` call on the grid and AABB list; stated by `RenderOne` and `BuildAppendsAabbs` |
| SceneGraph.Build | src/main.rs:189-195 | Rendering a list of placements in order, `None` at the first panic; stated by `BuildAppend`, `BuildAppendsAabbs`, `BuildNeverFails` and `BuildKeepsCovered` |
| SceneGraph.EnterComposes | src/main.rs:116-164 | A transform node with a frame composes affine maps: parent pose after the frame's own rotation and translation. Without a frame the pose is unchanged |
| SceneGraph.EnterKeepsSignedPerm | src/main.rs:162-163 | Entering a transform node keeps the rotation a signed permutation, with the corrected `_r` decoder |
| SceneGraph.VisitAllAppend | src/main.rs:176-188 | Walking a list of group children split in two is walking each part from the same pose, one after the other. Siblings never see each other's state |
| SceneGraph.BuildAppend | src/main.rs:189-195 | Rendering a list of placements split in two is rendering the second part from where the first left off |
| SceneGraph.BuildAppendsAabbs | src/main.rs:68-71 | A successful build appends exactly one AABB per rendered model, in order |
| SceneGraph.NamedIds | src/main.rs:190-191 | The ids that `models.get(id)` lets through, in order: an id is kept exactly when it appears in the list and names a model, and a list of named ids is kept whole |
| SceneGraph.NamedIdsSnoc | src/main.rs:190-191 | Filtering one more id at the end appends it exactly when it names a model |
| SceneGraph.ShapeRendersNamedModels | src/main.rs:189-195 | A shape node renders exactly the models its named ids select, one placement per named id, in order, each under the current pose |
| SceneGraph.VisitKeepsSignedPerm | src/main.rs:113-196 | Starting from a signed permutation, every rendered model gets a signed permutation, with the corrected `_r` decoder |
| SceneGraph.TransformKeepsSignedPerm | src/main.rs:115-175 | The same, through a transform node |
| SceneGraph.VisitAllKeepsSignedPerm | src/main.rs:176-188 | The same, through a group node |
| SceneGraph.VisitRendersSceneModels | src/main.rs:189-195 | Every rendered model is one of the scene's models |
| SceneGraph.VisitAllRendersSceneModels | src/main.rs:176-188 | The same, through a group node |
| SceneGraph.BuildNeverFails | src/main.rs:189-195 | Rendering placements that all have signed unit rows and well-formed models never panics |
| SceneGraph.SceneRendersWhenWalkResolves | src/main.rs:199-208 | With well-formed models and the corrected `_r` decoder, `new_from` can only panic on a node index outside the table |
| SceneGraph.BuildKeepsCovered | src/main.rs:189-195 | Rendering keeps every filled cell inside the AABB list |
| SceneGraph.SceneCovered | src/main.rs:199-210 | Every cell `new_from` fills lies in one of the AABBs it returns |
| SceneGraph.InsertScene | src/main.rs:104-197 | With the corrected `_r` decoder, `insert_scene` succeeds exactly when the walk resolves and its renders succeed, and then leaves the grid and the AABB list equal to `Build` of `Visit` |
| SceneGraph.InsertChildren | src/main.rs:176-188 | The group loop does the same for `VisitAll` of the children, with the same decoder |
| SceneGraph.ChildContinues | src/main.rs:176-188 | A group child whose walk and renders succeed continues the group's build from where the earlier children left off |
| SceneGraph.ChildPanics | src/main.rs:176-188 | A group child whose walk or renders panic makes the whole group panic |
| SceneGraph.InsertShape | src/main.rs:189-195 | The shape loop succeeds exactly when `Build` of the shape's placements does, and then equals it |
| SceneGraph.NewFrom | src/main.rs:199-210 | `new_from` walks from root node 0 under the identity and the offset, into an empty grid and AABB list, with the corrected `_r` decoder |
| SceneGraph.ShapePrefix | src/main.rs:190-194 | The placements of a prefix of a shape's ids are a prefix of the shape's placements |
| SceneGraph.RenderOne | src/main.rs:192 | One `render_model` call of the shape loop succeeds exactly when `RenderPlacement` does, and then leaves the grid and AABB list equal to it |
| SceneGraph.ShapeRenderStep | src/main.rs:190-194 | A model id continues the shape's build with one render of that model, and a panic in that render makes the whole shape panic |
| Blocks.Classify | src/main.rs:277-342 | The block for one cell: the colour match, then the flag fallback; stated by `ClassifyEmptyIff`, `CoinOnlyForJunglePlants`, `FixedColorsIgnoreFlags`, `WaterColorIsWater` and `FallbackPriority` |
| Blocks.ClassifyEmptyIff | src/main.rs:277-342 | A cell is classified as the `EmptyBlock` constructor (`Block::empty()`) exactly when it is empty |
| Blocks.CoinOnlyForJunglePlants | src/main.rs:305-315 | The coin changes the block exactly for colour (63, 96, 12), where it chooses red grass or fern |
| Blocks.FixedColorsIgnoreFlags | src/main.rs:279-325 | A listed colour gives the same block whatever the flags |
| Blocks.WaterColorIsWater | src/main.rs:280-284 | Colour (4, 119, 191) always gives water with the default colour, never a misc block |
| Blocks.FallbackPriority | src/main.rs:326-336 | For any other colour, each outcome happens exactly under its flag combination: hollow before glowy before shiny before misc. Only glowing rock and misc keep the colour |
| Blocks.RenderedVoxelBlock | src/main.rs:97 | A rendered voxel of an unlisted colour becomes the empty air sprite when its index is 16, and a misc block of its colour otherwise |
| Blocks.RenderedNeverGlowsOrShines | src/main.rs:97 | A rendered voxel never becomes glowing rock or a water sprite, because the glowy and shiny flags are never set |
| Blocks.CoveredCellsBecomeBlocks | src/main.rs:272-276 | In a covered grid, every filled cell passes the AABB filter and is classified as something other than the `EmptyBlock` constructor |
| Blocks.FillChunk | src/main.rs:272-343 | The cell loop of one chunk adds a block exactly at the chunk's positions inside some AABB, each with its classification |
| Blocks.FillPlane | src/main.rs:272-343 | For one local `x`, the cell loop adds a block exactly at the chunk's positions with that `x` inside some AABB, each with its classification |
| Blocks.FillRow | src/main.rs:272-343 | For one local `(x, y)`, the cell loop adds a block exactly at the chunk's positions with that `x` and `y` inside some AABB, each with its classification |
| Blocks.Fill | src/main.rs:270-345 | Blocks are written exactly at the grid positions inside some AABB, each with the classification of its cell |

## Left out

- Loading the placement specification and the assets is not modelled (src/main.rs:214-264, 269). This covers `graceful_load_vox` and its fallback model. `NewFrom` takes the node table, the models and the offset of `pieces[0]` as inputs. The empty-`pieces` fallback and the unused combination code are not part of this model.
- Palette conversion is not modelled (src/main.rs:46-50). It goes through `to_ne_bytes` and depends on endianness. The palette is an input sequence of RGB values.
- Text parsing of `_t` and `_r` is not modelled (src/main.rs:117-132). Their results are `Option` inputs of `Frame`.
- `VolGrid3d::new()` failing is not modelled (src/main.rs:41-44): the constructor always succeeds. The internals of `VolGrid3d`, `Chunk`, `Arc` and `Deref` are replaced by a map from key to chunk. The library is not part of this model. `pos_key` is taken as floor division by 32, as `SscSize` asks.
- Persistence (`set_block`, `unload_all`) and `println!` are not modelled. `Fill` returns the written blocks as a map.
- Blocks.Fill: the map does not record the order of the `set_block` calls. The grid's iteration order is unspecified, and each position is written at most once.
- `rand::thread_rng().gen_bool(0.5)` is replaced by the parameter `coin`, one value per world position.
- Fixed-width arithmetic is not modelled. `i32` overflow and the `as u32` / `as i32` casts of sizes are outside the model, because integers are unbounded.
- SceneGraph.InsertScene: the walk (`Rotation.FrameRotation`, `SceneGraph.Enter`, `SceneGraph.Visit`, `SceneGraph.VisitAll`, `SceneGraph.NewFrom`) decodes `_r` with the corrected `Decode`, not the closure as written (see Findings). With the source's decoder, the written closure reaches `rows[3]` on 61 bytes: those passing its guard whose low four bits are all clear (0, 16, …, 240), and those whose second selector is 3 with bits above bit 3 set (28-30, 44-46, …). It yields a singular matrix on the 32 bytes whose low four bits are 5 or 10 (`Rotation.AsWrittenPanics`, `Rotation.AsWrittenSingular`). On all of these bytes the source panics at src/main.rs:141-142 or composes a singular matrix, where the model rejects the byte and composes the identity. Bytes 0, 28 and 5 are examples (`Rotation.AsWrittenCounterexamples`). `Rotation.WrittenMatrixAxes` shows that the matrices the written closure does return still have signed unit rows, which is all `Render.RenderNeverFails` needs.
- SceneGraph.InsertChildren: the same decoder difference applies to every child walk.
- SceneGraph.SceneRendersWhenWalkResolves: the same decoder difference applies. With the source's decoder, `new_from` can also panic on a transform node whose `_r` is one of the 61 bytes `Rotation.AsWrittenPanics` characterises.
- SceneGraph.InsertScene: requires a ghost `rank` showing that the part of the node table reachable from the node is acyclic. On a cyclic table the source recurses without end. That behaviour is not modelled.
- SceneGraph.InsertScene: after a panic (`ok == false`), the returned grid and AABB list are not specified. The source aborts at that point.
- The veloren library is not part of this model, so three things are assumptions:
  - Each `Block` constructor call is taken as a distinct value, `Block::empty()` included. For example, `Block::new(BlockKind::Water, Rgb::default())` and `Block::water(SpriteKind::Empty)` are taken to differ, which `Blocks.FallbackPriority` and `Blocks.RenderedNeverGlowsOrShines` rely on.
  - The fourth argument of `Cell::new` is read as the hollow flag.
  - `Aabb::contains_point` is read as inclusive at both ends.

## Findings

| source | as written | input that shows it | evidently intended | confidence | as-written member | corrected member |
|---|---|---|---|---|---|---|
| src/main.rs:139 | The guard `n & 3 != 3 && n >> 2 != 3` lets through equal selectors. It also lets through a second selector of 3 whenever bits above bit 3 are set | `_r` = 0: the third selector is 3, so `rows[3]` panics at line 142; `_r` = 28: the second selector is 3, so it panics at line 141; 61 bytes in all do so. `_r` = 5: both rows read y, so the matrix is singular; 32 bytes in all do so | Accept only bytes whose two selectors are below 3 and differ, so every accepted byte is a signed permutation | medium, not executed; MagicaVoxel itself does not write these bytes | Rotation.AsWrittenCounterexamples | Rotation.DecodeIsSignedPerm |
