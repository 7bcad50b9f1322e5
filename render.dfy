/**
 * `render_model` (src/main.rs:51-102): place one model of the scene into the
 * grid under an accumulated rotation and translation.  It computes the
 * rotated size and the centred minimum corner, appends the model's AABB,
 * inserts every chunk the footprint touches, and writes one cell per voxel
 * whose palette index is in range.
 *
 * The central result is `RenderNeverFails`: when every row of the rotation is
 * a signed unit vector and every voxel lies inside the model's size, each
 * write lands in a chunk the insertion loop created, so `set(..).unwrap()`
 * cannot panic.
 */
module Render {
  import opened Wrappers
  import opened Geometry
  import opened Grid

  /** `dot_vox::Voxel`: local coordinates and a palette index. */
  datatype Voxel = Voxel(x: u8, y: u8, z: u8, i: u8)
  {
    function Pos(): Vec3 { Vec3(x, y, z) }
  }

  /** `dot_vox::Size`, unsigned. */
  datatype Size = Size(x: nat, y: nat, z: nat)
  {
    function AsVec(): Vec3 { Vec3(x, y, z) }
  }

  /** `dot_vox::Model`. */
  datatype Model = Model(size: Size, voxels: seq<Voxel>)

  predicate VoxelInside(size: Size, v: Voxel)
  {
    v.x < size.x && v.y < size.y && v.z < size.z
  }

  /** Every voxel of the model lies inside its declared size. */
  predicate WellFormed(m: Model)
  {
    forall k :: 0 <= k < |m.voxels| ==> VoxelInside(m.size, m.voxels[k])
  }

  /** Rust's `/ 2` on `i32`: truncation toward zero. */
  function Half(n: int): int
  {
    if n >= 0 then n / 2 else -((-n) / 2)
  }

  /** The per-axis flip correction `f.min(0) * -1`. */
  function FlipCorrection(f: int): nat
  {
    if f < 0 then -f else 0
  }

  /** The per-axis voxel offset: `if e > 0 { 0 } else { -e - 1 }`. */
  function Reanchor(e: int): int
  {
    if e > 0 then 0 else -e - 1
  }

  /** Where a model goes: rotated size, minimum corner and voxel offset. */
  datatype Layout = Layout(size: Vec3, pos: Vec3, offset: Vec3)

  /** The rotated size `|rot| * size` (src/main.rs:60-61). */
  function RotatedSize(rot: Mat3, msize: Size): Vec3
  {
    rot.Abs().Apply(msize.AsVec())
  }

  /**
   * The minimum corner `trans - (size + f.min(0) * -1) / 2` per axis, where
   * `f = rot * (1, 1, 1)` (src/main.rs:63-67).
   */
  function MinCorner(trans: Vec3, size: Vec3, f: Vec3): Vec3
  {
    Vec3(trans.x - Half(size.x + FlipCorrection(f.x)),
         trans.y - Half(size.y + FlipCorrection(f.y)),
         trans.z - Half(size.z + FlipCorrection(f.z)))
  }

  /** The voxel offset, `Reanchor` of `rot * size` per axis (src/main.rs:87-89). */
  function VoxelOffset(e: Vec3): Vec3
  {
    Vec3(Reanchor(e.x), Reanchor(e.y), Reanchor(e.z))
  }

  function LayoutOf(rot: Mat3, trans: Vec3, msize: Size): Layout
  {
    var size := RotatedSize(rot, msize);
    Layout(size, MinCorner(trans, size, rot.Apply(ONE)), VoxelOffset(rot.Apply(msize.AsVec())))
  }

  /** The AABB pushed for a render: `min = pos`, `max = pos + size`. */
  function AabbOf(rot: Mat3, trans: Vec3, msize: Size): Aabb
  {
    var l := LayoutOf(rot, trans, msize);
    Aabb(l.pos, l.pos.Plus(l.size))
  }

  /** The first and last chunk keys of the insertion loop: `pos_key(pos)`, `pos_key(pos + size - 1)`. */
  function MinKey(l: Layout): Vec3 { PosKey(l.pos) }

  function MaxKey(l: Layout): Vec3 { PosKey(l.pos.Plus(l.size).Minus(ONE)) }

  /** The world position of a voxel: `rot * v + offset + pos`. */
  function VoxelPos(rot: Mat3, l: Layout, v: Voxel): Vec3
  {
    rot.Apply(v.Pos()).Plus(l.offset).Plus(l.pos)
  }

  /** `Cell::new(color, false, false, voxel.i == 16)`. */
  function CellFor(palette: seq<Rgb>, v: Voxel): Cell
    requires v.i < |palette|
  {
    Filled(palette[v.i], false, false, v.i == 16)
  }

  /**
   * The voxel loop of src/main.rs:90-101, from the first voxel on: voxels
   * whose palette index is out of range are skipped; `None` is the panic of
   * the first write whose chunk is missing.
   */
  function Paint(chunks: Chunks, palette: seq<Rgb>, voxels: seq<Voxel>, rot: Mat3, l: Layout): Option<Chunks>
    decreases |voxels|
  {
    if voxels == [] then Some(chunks)
    else if voxels[0].i < |palette| then
      match WriteCell(chunks, VoxelPos(rot, l, voxels[0]), CellFor(palette, voxels[0]))
      case None => None
      case Some(next) => Paint(next, palette, voxels[1..], rot, l)
    else
      Paint(chunks, palette, voxels[1..], rot, l)
  }

  /** The grid after `render_model`, or `None` when it panics. */
  function RenderSpec(chunks: Chunks, palette: seq<Rgb>, model: Model, rot: Mat3, trans: Vec3): Option<Chunks>
  {
    var l := LayoutOf(rot, trans, model.size);
    Paint(Allocate(chunks, MinKey(l), MaxKey(l)), palette, model.voxels, rot, l)
  }

  /** The absolute value of a row applied to a size is never negative. */
  lemma AbsRowNonnegative(row: Vec3, s: Size)
    ensures Dot(Vec3(AbsInt(row.x), AbsInt(row.y), AbsInt(row.z)), s.AsVec()) >= 0
  {
    assert AbsInt(row.x) * s.x >= 0;
    assert AbsInt(row.y) * s.y >= 0;
    assert AbsInt(row.z) * s.z >= 0;
  }

  /** The numerators of the centring division are never negative, so truncation is floor division. */
  lemma CornerIsFloorDivision(rot: Mat3, trans: Vec3, msize: Size)
    ensures var l := LayoutOf(rot, trans, msize);
      var f := rot.Apply(ONE);
      && l.size.x >= 0 && l.size.y >= 0 && l.size.z >= 0
      && l.pos == Vec3(trans.x - (l.size.x + FlipCorrection(f.x)) / 2,
                       trans.y - (l.size.y + FlipCorrection(f.y)) / 2,
                       trans.z - (l.size.z + FlipCorrection(f.z)) / 2)
  {
    AbsRowNonnegative(rot.r0, msize);
    AbsRowNonnegative(rot.r1, msize);
    AbsRowNonnegative(rot.r2, msize);
  }

  /**
   * One axis of the placement: for a row `±e_j`, a coordinate `0 <= v_j < s_j`
   * lands `Dot(row, v) + Reanchor(Dot(row, s))` above the minimum corner,
   * which is below the rotated size `Dot(|row|, s)` on that axis.
   */
  lemma AxisPlacement(row: Vec3, s: Vec3, v: Vec3)
    requires SignedUnit(row)
    requires 0 <= v.x < s.x || row.x == 0
    requires 0 <= v.y < s.y || row.y == 0
    requires 0 <= v.z < s.z || row.z == 0
    ensures var d := Dot(row, v) + Reanchor(Dot(row, s));
      0 <= d < Dot(Vec3(AbsInt(row.x), AbsInt(row.y), AbsInt(row.z)), s)
  {
  }

  /**
   * A voxel inside the model lands inside the rotated footprint
   * `pos ..= pos + size - 1`, whatever signed unit rows the rotation has.
   */
  lemma VoxelInFootprint(rot: Mat3, trans: Vec3, msize: Size, v: Voxel)
    requires RowsSignedUnit(rot) && VoxelInside(msize, v)
    ensures var l := LayoutOf(rot, trans, msize);
      var w := VoxelPos(rot, l, v);
      l.pos.LessEq(w) && w.LessEq(l.pos.Plus(l.size).Minus(ONE))
  {
    AxisPlacement(rot.r0, msize.AsVec(), v.Pos());
    AxisPlacement(rot.r1, msize.AsVec(), v.Pos());
    AxisPlacement(rot.r2, msize.AsVec(), v.Pos());
  }

  /** Every written voxel lies in the AABB the same render pushed, so the fill filter keeps it. */
  lemma RenderedInsideAabb(rot: Mat3, trans: Vec3, msize: Size, v: Voxel)
    requires RowsSignedUnit(rot) && VoxelInside(msize, v)
    ensures AabbOf(rot, trans, msize).ContainsPoint(VoxelPos(rot, LayoutOf(rot, trans, msize), v))
  {
    VoxelInFootprint(rot, trans, msize, v);
  }

  /** The voxel loop never panics when every in-range voxel's chunk is present. */
  lemma {:induction false} PaintSucceeds(chunks: Chunks, palette: seq<Rgb>, voxels: seq<Voxel>, rot: Mat3, l: Layout)
    requires forall k :: 0 <= k < |voxels| && voxels[k].i < |palette| ==> PosKey(VoxelPos(rot, l, voxels[k])) in chunks
    ensures Paint(chunks, palette, voxels, rot, l).Some?
    decreases |voxels|
  {
    if voxels != [] {
      var next := chunks;
      if voxels[0].i < |palette| {
        WriteCellEffect(chunks, VoxelPos(rot, l, voxels[0]), CellFor(palette, voxels[0]));
        next := WriteCell(chunks, VoxelPos(rot, l, voxels[0]), CellFor(palette, voxels[0])).value;
      }
      forall k | 0 <= k < |voxels[1..]| && voxels[1..][k].i < |palette|
        ensures PosKey(VoxelPos(rot, l, voxels[1..][k])) in next
      {
        assert voxels[1..][k] == voxels[k + 1];
      }
      PaintSucceeds(next, palette, voxels[1..], rot, l);
    }
  }

  /**
   * `render_model` never panics: with a rotation whose rows are signed unit
   * vectors and a model whose voxels lie inside its size, every write lands in
   * a chunk that the insertion loop guarantees, so `set(..).unwrap()` holds.
   */
  lemma RenderNeverFails(chunks: Chunks, palette: seq<Rgb>, model: Model, rot: Mat3, trans: Vec3)
    requires RowsSignedUnit(rot) && WellFormed(model)
    ensures RenderSpec(chunks, palette, model, rot, trans).Some?
  {
    var l := LayoutOf(rot, trans, model.size);
    var grid := Allocate(chunks, MinKey(l), MaxKey(l));
    forall k | 0 <= k < |model.voxels| && model.voxels[k].i < |palette|
      ensures PosKey(VoxelPos(rot, l, model.voxels[k])) in grid
    {
      var w := VoxelPos(rot, l, model.voxels[k]);
      VoxelInFootprint(rot, trans, model.size, model.voxels[k]);
      PosKeyMonotone(l.pos, w);
      PosKeyMonotone(w, l.pos.Plus(l.size).Minus(ONE));
    }
    PaintSucceeds(grid, palette, model.voxels, rot, l);
  }

  /** Painting adds and removes no chunk. */
  lemma {:induction false} PaintKeepsKeys(chunks: Chunks, palette: seq<Rgb>, voxels: seq<Voxel>, rot: Mat3, l: Layout)
    requires Paint(chunks, palette, voxels, rot, l).Some?
    ensures Paint(chunks, palette, voxels, rot, l).value.Keys == chunks.Keys
    decreases |voxels|
  {
    if voxels != [] {
      if voxels[0].i < |palette| {
        WriteCellEffect(chunks, VoxelPos(rot, l, voxels[0]), CellFor(palette, voxels[0]));
        PaintKeepsKeys(WriteCell(chunks, VoxelPos(rot, l, voxels[0]), CellFor(palette, voxels[0])).value,
                       palette, voxels[1..], rot, l);
      } else {
        PaintKeepsKeys(chunks, palette, voxels[1..], rot, l);
      }
    }
  }

  /** A position no in-range voxel lands on reads after painting as it did before. */
  lemma {:induction false} PaintLeavesOthers(chunks: Chunks, palette: seq<Rgb>, voxels: seq<Voxel>, rot: Mat3, l: Layout, p: Vec3)
    requires Paint(chunks, palette, voxels, rot, l).Some?
    requires forall k :: 0 <= k < |voxels| && voxels[k].i < |palette| ==> VoxelPos(rot, l, voxels[k]) != p
    ensures CellAt(Paint(chunks, palette, voxels, rot, l).value, p) == CellAt(chunks, p)
    decreases |voxels|
  {
    if voxels != [] {
      var next := chunks;
      if voxels[0].i < |palette| {
        WriteCellEffect(chunks, VoxelPos(rot, l, voxels[0]), CellFor(palette, voxels[0]));
        next := WriteCell(chunks, VoxelPos(rot, l, voxels[0]), CellFor(palette, voxels[0])).value;
      }
      forall k | 0 <= k < |voxels[1..]| && voxels[1..][k].i < |palette|
        ensures VoxelPos(rot, l, voxels[1..][k]) != p
      {
        assert voxels[1..][k] == voxels[k + 1];
      }
      PaintLeavesOthers(next, palette, voxels[1..], rot, l, p);
    }
  }

  /**
   * Last write wins: after painting, the position of voxel `k` holds voxel
   * `k`'s colour with the hollow flag set exactly for palette index 16,
   * unless a later in-range voxel lands on the same position.
   */
  lemma {:induction false} PaintLastWriteWins(chunks: Chunks, palette: seq<Rgb>, voxels: seq<Voxel>, rot: Mat3, l: Layout, k: nat)
    requires Paint(chunks, palette, voxels, rot, l).Some?
    requires k < |voxels| && voxels[k].i < |palette|
    requires forall j :: k < j < |voxels| && voxels[j].i < |palette| ==> VoxelPos(rot, l, voxels[j]) != VoxelPos(rot, l, voxels[k])
    ensures CellAt(Paint(chunks, palette, voxels, rot, l).value, VoxelPos(rot, l, voxels[k]))
            == Some(Filled(palette[voxels[k].i], false, false, voxels[k].i == 16))
    decreases |voxels|
  {
    var next := chunks;
    if voxels[0].i < |palette| {
      WriteCellEffect(chunks, VoxelPos(rot, l, voxels[0]), CellFor(palette, voxels[0]));
      next := WriteCell(chunks, VoxelPos(rot, l, voxels[0]), CellFor(palette, voxels[0])).value;
    }
    if k == 0 {
      forall j | 0 <= j < |voxels[1..]| && voxels[1..][j].i < |palette|
        ensures VoxelPos(rot, l, voxels[1..][j]) != VoxelPos(rot, l, voxels[0])
      {
        assert voxels[1..][j] == voxels[j + 1];
      }
      PaintLeavesOthers(next, palette, voxels[1..], rot, l, VoxelPos(rot, l, voxels[0]));
    } else {
      forall j | k - 1 < j < |voxels[1..]| && voxels[1..][j].i < |palette|
        ensures VoxelPos(rot, l, voxels[1..][j]) != VoxelPos(rot, l, voxels[1..][k - 1])
      {
        assert voxels[1..][j] == voxels[j + 1];
      }
      PaintLastWriteWins(next, palette, voxels[1..], rot, l, k - 1);
    }
  }

  /**
   * For a signed permutation the rotated size is the model size with its
   * components permuted: component i is the size along the axis row i reads.
   */
  lemma RotatedSizePermutes(rot: Mat3, msize: Size)
    requires IsSignedPerm(rot)
    ensures var s := LayoutOf(rot, ZERO, msize).size;
      && s == Vec3(msize.AsVec().At(Axis(rot.r0)), msize.AsVec().At(Axis(rot.r1)), msize.AsVec().At(Axis(rot.r2)))
      && multiset{s.x, s.y, s.z} == multiset{msize.x, msize.y, msize.z}
  {
    var m := msize.AsVec();
    RotatedSizeReadsAxes(rot, msize);
    ThreeAxesPermute(m, Axis(rot.r0), Axis(rot.r1), Axis(rot.r2));
  }

  /** With signed unit rows, component i of the rotated size is the size along the axis row i reads. */
  lemma RotatedSizeReadsAxes(rot: Mat3, msize: Size)
    requires RowsSignedUnit(rot)
    ensures RotatedSize(rot, msize) ==
            Vec3(msize.AsVec().At(Axis(rot.r0)), msize.AsVec().At(Axis(rot.r1)), msize.AsVec().At(Axis(rot.r2)))
  {
    var m := msize.AsVec();
    AbsUnitRow(rot.r0, m);
    AbsUnitRow(rot.r1, m);
    AbsUnitRow(rot.r2, m);
  }

  /** Reading a vector along three distinct axes yields its components in some order. */
  lemma ThreeAxesPermute(m: Vec3, a: nat, b: nat, c: nat)
    requires a < 3 && b < 3 && c < 3 && a != b && a != c && b != c
    ensures multiset{m.At(a), m.At(b), m.At(c)} == multiset{m.x, m.y, m.z}
  {
    if a == 0 {
      if b == 1 {
        assert [m.At(a), m.At(b), m.At(c)] == [m.x, m.y, m.z];
      } else {
        assert [m.At(a), m.At(b), m.At(c)] == [m.x, m.z, m.y];
      }
    } else if a == 1 {
      if b == 0 {
        assert [m.At(a), m.At(b), m.At(c)] == [m.y, m.x, m.z];
      } else {
        assert [m.At(a), m.At(b), m.At(c)] == [m.y, m.z, m.x];
      }
    } else {
      if b == 0 {
        assert [m.At(a), m.At(b), m.At(c)] == [m.z, m.x, m.y];
      } else {
        assert [m.At(a), m.At(b), m.At(c)] == [m.z, m.y, m.x];
      }
    }
  }

  /** The absolute value of a signed unit row reads one component of a vector. */
  lemma AbsUnitRow(row: Vec3, s: Vec3)
    requires SignedUnit(row)
    ensures Dot(Vec3(AbsInt(row.x), AbsInt(row.y), AbsInt(row.z)), s) == s.At(Axis(row))
  {
  }

  /**
   * Under the identity the footprint is the model size, its corner is the
   * translation minus half the size, and voxel `v` lands at `pos + v`.
   */
  lemma IdentityPlacement(rot: Mat3, trans: Vec3, msize: Size, v: Voxel)
    requires rot == IDENTITY
    requires VoxelInside(msize, v)
    ensures var l := LayoutOf(rot, trans, msize);
      && l.size == msize.AsVec()
      && l.pos == Vec3(trans.x - msize.x / 2, trans.y - msize.y / 2, trans.z - msize.z / 2)
      && VoxelPos(rot, l, v) == l.pos.Plus(v.Pos())
  {
    IdentityLayout(rot, trans, msize);
    IdentityVoxel(LayoutOf(rot, trans, msize), v);
  }

  /** The whole layout under the identity: the model size, the centred corner, no offset. */
  lemma IdentityLayout(rot: Mat3, trans: Vec3, msize: Size)
    requires rot == IDENTITY
    requires msize.x > 0 && msize.y > 0 && msize.z > 0
    ensures LayoutOf(rot, trans, msize)
            == Layout(msize.AsVec(), Vec3(trans.x - msize.x / 2, trans.y - msize.y / 2, trans.z - msize.z / 2), ZERO)
  {
    IdentitySize(msize);
    IdentityCorner(trans, msize);
    IdentityOffset(trans, msize);
  }

  lemma IdentityVoxel(l: Layout, v: Voxel)
    requires l.offset == ZERO
    ensures VoxelPos(IDENTITY, l, v) == l.pos.Plus(v.Pos())
  {
    IdentityApply(v.Pos());
  }

  lemma IdentitySize(msize: Size)
    ensures RotatedSize(IDENTITY, msize) == msize.AsVec()
  {
    IdentityApply(msize.AsVec());
    assert IDENTITY.Abs() == IDENTITY;
  }

  lemma IdentityCorner(trans: Vec3, msize: Size)
    ensures LayoutOf(IDENTITY, trans, msize).pos == Vec3(trans.x - msize.x / 2, trans.y - msize.y / 2, trans.z - msize.z / 2)
  {
    LayoutCorner(IDENTITY, trans, msize);
    IdentitySize(msize);
    IdentityApply(ONE);
    CenteredCorner(trans, msize);
  }

  lemma IdentityOffset(trans: Vec3, msize: Size)
    requires msize.x > 0 && msize.y > 0 && msize.z > 0
    ensures LayoutOf(IDENTITY, trans, msize).offset == ZERO
  {
    IdentityApply(msize.AsVec());
  }

  lemma LayoutCorner(rot: Mat3, trans: Vec3, msize: Size)
    ensures LayoutOf(rot, trans, msize).pos == MinCorner(trans, RotatedSize(rot, msize), rot.Apply(ONE))
  {
  }

  lemma CenteredCorner(trans: Vec3, msize: Size)
    ensures MinCorner(trans, msize.AsVec(), ONE) == Vec3(trans.x - msize.x / 2, trans.y - msize.y / 2, trans.z - msize.z / 2)
  {
  }

  lemma IdentityApply(v: Vec3)
    ensures IDENTITY.Apply(v) == v
  {
  }

  /** A cell the voxel loop leaves filled was filled before or is the position of an in-range voxel. */
  lemma {:induction false} PaintFillsOnlyVoxels(chunks: Chunks, palette: seq<Rgb>, voxels: seq<Voxel>, rot: Mat3, l: Layout,
                                                p: Vec3)
    requires Paint(chunks, palette, voxels, rot, l).Some?
    requires FilledAt(Paint(chunks, palette, voxels, rot, l).value, p)
    ensures FilledAt(chunks, p) || exists k :: 0 <= k < |voxels| && voxels[k].i < |palette| && VoxelPos(rot, l, voxels[k]) == p
    decreases |voxels|
  {
    if voxels != [] {
      var next := chunks;
      if voxels[0].i < |palette| {
        WriteCellEffect(chunks, VoxelPos(rot, l, voxels[0]), CellFor(palette, voxels[0]));
        next := WriteCell(chunks, VoxelPos(rot, l, voxels[0]), CellFor(palette, voxels[0])).value;
      }
      PaintFillsOnlyVoxels(next, palette, voxels[1..], rot, l, p);
      if !FilledAt(next, p) {
        var k :| 0 <= k < |voxels[1..]| && voxels[1..][k].i < |palette| && VoxelPos(rot, l, voxels[1..][k]) == p;
        assert voxels[k + 1] == voxels[1..][k];
      } else if voxels[0].i < |palette| && VoxelPos(rot, l, voxels[0]) == p {
        assert 0 < |voxels|;
      }
    }
  }

  /** Every filled cell of the grid lies in one of the pushed AABBs. */
  ghost predicate Covered(chunks: Chunks, aabbs: seq<Aabb>)
  {
    forall p :: FilledAt(chunks, p) ==> InAnyAabb(aabbs, p)
  }

  /**
   * A render keeps every filled cell inside the AABB list: the cells it fills
   * lie in the AABB it pushes, and the cells filled before stay inside the
   * boxes pushed before.
   */
  lemma RenderKeepsCovered(chunks: Chunks, aabbs: seq<Aabb>, palette: seq<Rgb>, model: Model, rot: Mat3, trans: Vec3)
    requires RowsSignedUnit(rot) && WellFormed(model)
    requires Covered(chunks, aabbs)
    requires RenderSpec(chunks, palette, model, rot, trans).Some?
    ensures Covered(RenderSpec(chunks, palette, model, rot, trans).value, aabbs + [AabbOf(rot, trans, model.size)])
  {
    var l := LayoutOf(rot, trans, model.size);
    var grid := Allocate(chunks, MinKey(l), MaxKey(l));
    var after := RenderSpec(chunks, palette, model, rot, trans).value;
    var box := AabbOf(rot, trans, model.size);
    forall p | FilledAt(after, p)
      ensures InAnyAabb(aabbs + [box], p)
    {
      PaintFillsOnlyVoxels(grid, palette, model.voxels, rot, l, p);
      if FilledAt(grid, p) {
        AllocateAddsNoFilled(chunks, MinKey(l), MaxKey(l), p);
        InAnyAabbGrows(aabbs, [box], p);
      } else {
        var k :| 0 <= k < |model.voxels| && model.voxels[k].i < |palette| && VoxelPos(rot, l, model.voxels[k]) == p;
        RenderedInsideAabb(rot, trans, model.size, model.voxels[k]);
        assert (aabbs + [box])[|aabbs|] == box;
      }
    }
  }

  /** The triple loop of src/main.rs:76-86: insert an empty chunk under every missing key of `lo..=hi`. */
  method InsertChunks(scene: SparseScene, lo: Vec3, hi: Vec3)
    modifies scene
    ensures scene.chunks == Allocate(old(scene.chunks), lo, hi)
  {
    ghost var before := scene.chunks;
    var x := lo.x;
    while x <= hi.x
      invariant lo.x <= x
      invariant forall k :: k in scene.chunks <==> k in before || (InBox(k, lo, hi) && k.x < x)
      invariant forall k :: k in before ==> scene.chunks[k] == before[k]
      invariant forall k :: k in scene.chunks && k !in before ==> scene.chunks[k] == EMPTY_CHUNK
    {
      InsertPlane(scene, lo, hi, x);
      x := x + 1;
    }
  }

  /** The `for y` loop for one `x`: insert the missing keys of `lo..=hi` whose first coordinate is `x`. */
  method InsertPlane(scene: SparseScene, lo: Vec3, hi: Vec3, x: int)
    requires lo.x <= x <= hi.x
    modifies scene
    ensures forall k :: k in scene.chunks <==> k in old(scene.chunks) || (InBox(k, lo, hi) && k.x == x)
    ensures forall k :: k in old(scene.chunks) ==> scene.chunks[k] == old(scene.chunks)[k]
    ensures forall k :: k in scene.chunks && k !in old(scene.chunks) ==> scene.chunks[k] == EMPTY_CHUNK
  {
    ghost var before := scene.chunks;
    var y := lo.y;
    while y <= hi.y
      invariant lo.y <= y
      invariant forall k :: k in scene.chunks <==> k in before || (InBox(k, lo, hi) && k.x == x && k.y < y)
      invariant forall k :: k in before ==> scene.chunks[k] == before[k]
      invariant forall k :: k in scene.chunks && k !in before ==> scene.chunks[k] == EMPTY_CHUNK
    {
      InsertRow(scene, lo, hi, x, y);
      y := y + 1;
    }
  }

  /** The `for z` loop for one `(x, y)`: insert the missing keys `(x, y, lo.z..=hi.z)`. */
  method InsertRow(scene: SparseScene, lo: Vec3, hi: Vec3, x: int, y: int)
    requires lo.x <= x <= hi.x && lo.y <= y <= hi.y
    modifies scene
    ensures forall k :: k in scene.chunks <==> k in old(scene.chunks) || (InBox(k, lo, hi) && k.x == x && k.y == y)
    ensures forall k :: k in old(scene.chunks) ==> scene.chunks[k] == old(scene.chunks)[k]
    ensures forall k :: k in scene.chunks && k !in old(scene.chunks) ==> scene.chunks[k] == EMPTY_CHUNK
  {
    ghost var before := scene.chunks;
    var z := lo.z;
    while z <= hi.z
      invariant lo.z <= z
      invariant forall k :: k in scene.chunks <==> k in before || (InBox(k, lo, hi) && k.x == x && k.y == y && k.z < z)
      invariant forall k :: k in before ==> scene.chunks[k] == before[k]
      invariant forall k :: k in scene.chunks && k !in before ==> scene.chunks[k] == EMPTY_CHUNK
    {
      var key := Vec3(x, y, z);
      if scene.GetKey(key).None? {
        scene.Insert(key, EMPTY_CHUNK);
      }
      z := z + 1;
    }
  }

  /** The voxel loop of src/main.rs:90-101; `ok` is false where `unwrap` would panic. */
  method PaintVoxels(scene: SparseScene, palette: seq<Rgb>, voxels: seq<Voxel>, rot: Mat3, l: Layout) returns (ok: bool)
    modifies scene
    ensures ok <==> Paint(old(scene.chunks), palette, voxels, rot, l).Some?
    ensures ok ==> Paint(old(scene.chunks), palette, voxels, rot, l) == Some(scene.chunks)
  {
    ghost var result := Paint(scene.chunks, palette, voxels, rot, l);
    var k := 0;
    while k < |voxels|
      invariant 0 <= k <= |voxels|
      invariant result == Paint(scene.chunks, palette, voxels[k..], rot, l)
    {
      assert voxels[k..][1..] == voxels[k + 1..];
      var v := voxels[k];
      if v.i < |palette| {
        var color := palette[v.i];
        var written := scene.Set(VoxelPos(rot, l, v), Filled(color, false, false, v.i == 16));
        if !written {
          return false;
        }
      }
      k := k + 1;
    }
    return true;
  }

  /**
   * `render_model`: the AABB list grows by exactly this model's box, and the
   * grid becomes `RenderSpec` of the old one; `ok` is false where the source
   * panics.
   */
  method RenderModel(palette: seq<Rgb>, model: Model, scene: SparseScene, aabbs: seq<Aabb>, rot: Mat3, trans: Vec3)
    returns (aabbsOut: seq<Aabb>, ok: bool)
    modifies scene
    ensures aabbsOut == aabbs + [AabbOf(rot, trans, model.size)]
    ensures ok <==> RenderSpec(old(scene.chunks), palette, model, rot, trans).Some?
    ensures ok ==> RenderSpec(old(scene.chunks), palette, model, rot, trans) == Some(scene.chunks)
  {
    var l := LayoutOf(rot, trans, model.size);
    aabbsOut := aabbs + [Aabb(l.pos, l.pos.Plus(l.size))];
    InsertChunks(scene, MinKey(l), MaxKey(l));
    ok := PaintVoxels(scene, palette, model.voxels, rot, l);
  }
}
