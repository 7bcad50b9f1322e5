/**
 * `insert_scene` and `SparseScene::new_from` (src/main.rs:40-211): a
 * depth-first walk of the scene's node table from node 0 that carries the
 * accumulated rotation and translation by value and renders every model a
 * shape node names.
 *
 * `Visit` lists, in rendering order, the models to render and the pose each
 * is rendered under, or `None` where the walk reaches a node index outside
 * the table (`scene.get(..).unwrap()` panics).  `Build` renders such a list
 * into a grid and an AABB list.  `InsertScene` is proved to do exactly
 * `Build` of `Visit`.
 */
module SceneGraph {
  import opened Wrappers
  import opened Geometry
  import opened Rotation
  import opened Grid
  import opened Render

  /**
   * The first-frame attributes a transform node reads: `_t` as three `i32`s
   * and `_r` as a `u8`, each `None` when absent or when it does not parse.
   */
  datatype Frame = Frame(t: Option<Vec3>, r: Option<bv8>)

  /** `dot_vox::SceneNode`, with node and model references as indices. */
  datatype SceneNode =
    | Transform(frames: seq<Frame>, child: nat)
    | Group(children: seq<nat>)
    | Shape(models: seq<nat>)

  function Children(node: SceneNode): seq<nat>
  {
    match node
    case Transform(_, child) => [child]
    case Group(children) => children
    case Shape(_) => []
  }

  /** The state passed down the walk: accumulated rotation and translation. */
  datatype Pose = Pose(rot: Mat3, trans: Vec3)

  /** Where a pose puts a point of its local space: `rot * v + trans`. */
  function Place(pose: Pose, v: Vec3): Vec3
  {
    pose.rot.Apply(v).Plus(pose.trans)
  }

  /**
   * The pose below a transform node (src/main.rs:116-164): with a first frame,
   * `trans += rot * t` under the parent's rotation, then `rot *= r`; a missing
   * `_t` is the zero vector and `_r` goes through `FrameRotation`.  Without a
   * frame the pose passes through.
   */
  function Enter(pose: Pose, frames: seq<Frame>): Pose
  {
    if |frames| == 0 then pose
    else
      var t := frames[0].t.GetOr(ZERO);
      var r := FrameRotation(frames[0].r);
      Pose(pose.rot.Times(r), pose.trans.Plus(pose.rot.Apply(t)))
  }

  /** One model to render and the pose to render it under. */
  datatype Placement = Placement(model: Model, pose: Pose)

  /**
   * `rank` witnesses that the part of the table reachable from a ranked node
   * is acyclic: a node with a positive rank has children that are outside
   * the table or have a smaller positive rank.  The source does not check
   * this; on a cycle its recursion never ends.
   */
  predicate Ranked(nodes: seq<SceneNode>, rank: seq<nat>)
  {
    && |rank| == |nodes|
    && forall i :: 0 <= i < |nodes| && rank[i] > 0 ==>
         forall c :: c in Children(nodes[i]) && c < |nodes| ==> 0 < rank[c] < rank[i]
  }

  function Measure(nodes: seq<SceneNode>, rank: seq<nat>, idx: nat): nat
  {
    if idx < |nodes| && idx < |rank| then rank[idx] else 0
  }

  /** Sequential composition of two walks: the first `None` aborts the rest. */
  function Join(a: Option<seq<Placement>>, b: Option<seq<Placement>>): Option<seq<Placement>>
  {
    match a
    case None => None
    case Some(x) =>
      match b
      case None => None
      case Some(y) => Some(x + y)
  }

  /**
   * The walk from node `idx` under `pose`: the placements it renders, in
   * order, or `None` when it reaches an index outside the table.
   */
  function Visit(nodes: seq<SceneNode>, models: seq<Model>, idx: nat, pose: Pose, rank: seq<nat>): Option<seq<Placement>>
    requires Ranked(nodes, rank)
    requires idx < |nodes| ==> rank[idx] > 0
    decreases Measure(nodes, rank, idx), 1, 0
  {
    if idx >= |nodes| then None
    else
      match nodes[idx]
      case Transform(frames, child) => Visit(nodes, models, child, Enter(pose, frames), rank)
      case Group(children) => VisitAll(nodes, models, children, rank[idx], pose, rank)
      case Shape(ms) => Some(ShapePlacements(models, ms, pose))
  }

  /** The children `cs` of a group, each walked from the same `pose`, one after another. */
  function VisitAll(nodes: seq<SceneNode>, models: seq<Model>, cs: seq<nat>, bound: nat, pose: Pose, rank: seq<nat>)
    : Option<seq<Placement>>
    requires Ranked(nodes, rank)
    requires bound > 0
    requires forall c :: c in cs && c < |nodes| ==> 0 < rank[c] < bound
    decreases bound, 0, |cs|
  {
    if cs == [] then Some([])
    else
      Join(VisitAll(nodes, models, cs[..|cs| - 1], bound, pose, rank),
           Visit(nodes, models, cs[|cs| - 1], pose, rank))
  }

  /** A shape node renders each model whose id is in range, under the current pose. */
  function ShapePlacements(models: seq<Model>, ms: seq<nat>, pose: Pose): seq<Placement>
  {
    if ms == [] then []
    else
      var id := ms[|ms| - 1];
      ShapePlacements(models, ms[..|ms| - 1], pose) + (if id < |models| then [Placement(models[id], pose)] else [])
  }

  /** The grid and the AABB list as `new_from` builds them. */
  datatype State = State(chunks: Chunks, aabbs: seq<Aabb>)

  /** One render of `insert_scene`'s shape loop: paint the model and push its AABB; `None` where it panics. */
  function RenderPlacement(st: State, palette: seq<Rgb>, p: Placement): Option<State>
  {
    match RenderSpec(st.chunks, palette, p.model, p.pose.rot, p.pose.trans)
    case None => None
    case Some(chunks) => Some(State(chunks, st.aabbs + [AabbOf(p.pose.rot, p.pose.trans, p.model.size)]))
  }

  /** Render the placements one after another; `None` at the first render that panics. */
  function Build(st: State, palette: seq<Rgb>, ps: seq<Placement>): Option<State>
    decreases |ps|
  {
    if ps == [] then Some(st)
    else
      match RenderPlacement(st, palette, ps[0])
      case None => None
      case Some(next) => Build(next, palette, ps[1..])
  }

  function Then(r: Option<State>, palette: seq<Rgb>, ps: seq<Placement>): Option<State>
  {
    match r
    case None => None
    case Some(st) => Build(st, palette, ps)
  }

  /** The AABB each placement pushes, in order. */
  function AabbsOf(ps: seq<Placement>): seq<Aabb>
  {
    if ps == [] then [] else [AabbOf(ps[0].pose.rot, ps[0].pose.trans, ps[0].model.size)] + AabbsOf(ps[1..])
  }

  /**
   * A transform node composes poses as affine maps: a point of the child's
   * space goes first through the frame's own rotation and translation, then
   * through the parent's pose.
   */
  lemma EnterComposes(pose: Pose, frames: seq<Frame>, v: Vec3)
    ensures |frames| == 0 ==> Enter(pose, frames) == pose
    ensures |frames| > 0 ==>
      Place(Enter(pose, frames), v)
        == Place(pose, Place(Pose(FrameRotation(frames[0].r), frames[0].t.GetOr(ZERO)), v))
  {
    if |frames| > 0 {
      var r := FrameRotation(frames[0].r);
      var t := frames[0].t.GetOr(ZERO);
      TimesApply(pose.rot, r, v);
      ApplyPlus(pose.rot, r.Apply(v), t);
    }
  }

  /** Walking a node list split in two is walking each part from the same pose, in turn. */
  lemma {:induction false} VisitAllAppend(nodes: seq<SceneNode>, models: seq<Model>, cs: seq<nat>, ds: seq<nat>,
                                         bound: nat, pose: Pose, rank: seq<nat>)
    requires Ranked(nodes, rank) && bound > 0
    requires forall c :: c in cs + ds && c < |nodes| ==> 0 < rank[c] < bound
    ensures VisitAll(nodes, models, cs + ds, bound, pose, rank)
            == Join(VisitAll(nodes, models, cs, bound, pose, rank), VisitAll(nodes, models, ds, bound, pose, rank))
    decreases |ds|
  {
    if ds == [] {
      assert cs + ds == cs;
      var a := VisitAll(nodes, models, cs, bound, pose, rank);
      if a.Some? {
        assert a.value + [] == a.value;
      }
    } else {
      var last := ds[|ds| - 1];
      var init := ds[..|ds| - 1];
      assert (cs + ds)[..|cs + ds| - 1] == cs + init;
      assert (cs + ds)[|cs + ds| - 1] == last;
      VisitAllAppend(nodes, models, cs, init, bound, pose, rank);
      var a := VisitAll(nodes, models, cs, bound, pose, rank);
      var b := VisitAll(nodes, models, init, bound, pose, rank);
      var c := Visit(nodes, models, last, pose, rank);
      if a.Some? && b.Some? && c.Some? {
        assert a.value + b.value + c.value == a.value + (b.value + c.value);
      }
    }
  }

  /** Rendering a list split in two is rendering the first part, then the second from where it left off. */
  lemma {:induction false} BuildAppend(st: State, palette: seq<Rgb>, ps: seq<Placement>, qs: seq<Placement>)
    ensures Build(st, palette, ps + qs) == Then(Build(st, palette, ps), palette, qs)
    decreases |ps|
  {
    if ps == [] {
      assert ps + qs == qs;
    } else {
      assert (ps + qs)[0] == ps[0];
      assert (ps + qs)[1..] == ps[1..] + qs;
      match RenderPlacement(st, palette, ps[0])
      case None =>
      case Some(next) => BuildAppend(next, palette, ps[1..], qs);
    }
  }

  lemma BuildOne(st: State, palette: seq<Rgb>, p: Placement)
    ensures Build(st, palette, [p]) == RenderPlacement(st, palette, p)
  {
    assert [p][1..] == [];
  }

  lemma AppendAssoc<T>(a: seq<T>, b: seq<T>, c: seq<T>)
    ensures a + b + c == a + (b + c)
  {
  }

  /** Every render appends exactly one AABB: a successful build appends one per placement, in order. */
  lemma {:induction false} BuildAppendsAabbs(st: State, palette: seq<Rgb>, ps: seq<Placement>)
    requires Build(st, palette, ps).Some?
    ensures Build(st, palette, ps).value.aabbs == st.aabbs + AabbsOf(ps)
    decreases |ps|
  {
    if ps == [] {
      assert st.aabbs + [] == st.aabbs;
    } else {
      var p := ps[0];
      var box := AabbOf(p.pose.rot, p.pose.trans, p.model.size);
      var next := RenderPlacement(st, palette, p).value;
      assert next.aabbs == st.aabbs + [box];
      assert Build(st, palette, ps) == Build(next, palette, ps[1..]);
      assert AabbsOf(ps) == [box] + AabbsOf(ps[1..]);
      BuildAppendsAabbs(next, palette, ps[1..]);
      AppendAssoc(st.aabbs, [box], AabbsOf(ps[1..]));
    }
  }

  /** Every placement's rotation has signed unit rows. */
  predicate RigidPlacements(ps: seq<Placement>)
  {
    forall k :: 0 <= k < |ps| ==> RowsSignedUnit(ps[k].pose.rot)
  }

  /** Every placement's rotation is a signed permutation. */
  predicate SignedPermPlacements(ps: seq<Placement>)
  {
    forall k :: 0 <= k < |ps| ==> IsSignedPerm(ps[k].pose.rot)
  }

  /** Every placement's model has its voxels inside its size. */
  predicate WellFormedPlacements(ps: seq<Placement>)
  {
    forall k :: 0 <= k < |ps| ==> WellFormed(ps[k].model)
  }

  lemma EnterKeepsSignedPerm(pose: Pose, frames: seq<Frame>)
    requires IsSignedPerm(pose.rot)
    ensures IsSignedPerm(Enter(pose, frames).rot)
  {
    if |frames| > 0 {
      FrameRotationIsSignedPerm(frames[0].r);
      TimesKeepsSignedPerm(pose.rot, FrameRotation(frames[0].r));
    }
  }

  lemma ShapeKeepsPose(models: seq<Model>, ms: seq<nat>, pose: Pose)
    ensures forall k :: 0 <= k < |ShapePlacements(models, ms, pose)| ==>
      ShapePlacements(models, ms, pose)[k].pose == pose && ShapePlacements(models, ms, pose)[k].model in models
  {
  }

  /**
   * The ids of `ms` that name one of `n` models, in their order in `ms`:
   * what `models.get(id)` lets through.
   */
  function NamedIds(ms: seq<nat>, n: nat): (r: seq<nat>)
    ensures |r| <= |ms|
    ensures forall k :: 0 <= k < |r| ==> r[k] < n
    ensures forall i :: i in r <==> i in ms && i < n
    ensures (forall k :: 0 <= k < |ms| ==> ms[k] < n) ==> r == ms
  {
    if ms == [] then []
    else (if ms[0] < n then [ms[0]] else []) + NamedIds(ms[1..], n)
  }

  /** Filtering one more id at the end appends it when it names a model. */
  lemma {:induction false} NamedIdsSnoc(ms: seq<nat>, id: nat, n: nat)
    ensures NamedIds(ms + [id], n) == NamedIds(ms, n) + (if id < n then [id] else [])
    decreases |ms|
  {
    if ms == [] {
      assert [id][1..] == [];
    } else {
      assert (ms + [id])[0] == ms[0];
      assert (ms + [id])[1..] == ms[1..] + [id];
      NamedIdsSnoc(ms[1..], id, n);
    }
  }

  /**
   * A shape node renders, in order and under the current pose, exactly the
   * models its ids name, skipping the ids with no model.
   */
  lemma {:induction false} ShapeRendersNamedModels(models: seq<Model>, ms: seq<nat>, pose: Pose)
    ensures var ps := ShapePlacements(models, ms, pose);
      var ids := NamedIds(ms, |models|);
      && |ps| == |ids|
      && forall k :: 0 <= k < |ps| ==> ps[k] == Placement(models[ids[k]], pose)
    decreases |ms|
  {
    if ms != [] {
      var init, id := ms[..|ms| - 1], ms[|ms| - 1];
      assert ms == init + [id];
      ShapeRendersNamedModels(models, init, pose);
      NamedIdsSnoc(init, id, |models|);
    }
  }

  /**
   * Starting from a signed permutation, every model the walk renders is
   * rendered under a signed permutation: the decoder yields one for every
   * frame and products of them are again signed permutations.
   */
  lemma {:induction false} VisitKeepsSignedPerm(nodes: seq<SceneNode>, models: seq<Model>, idx: nat, pose: Pose, rank: seq<nat>)
    requires Ranked(nodes, rank)
    requires idx < |nodes| ==> rank[idx] > 0
    requires IsSignedPerm(pose.rot)
    ensures Visit(nodes, models, idx, pose, rank).Some? ==> SignedPermPlacements(Visit(nodes, models, idx, pose, rank).value)
    decreases Measure(nodes, rank, idx), 1, 0
  {
    if idx < |nodes| {
      match nodes[idx]
      case Transform(frames, child) =>
        TransformKeepsSignedPerm(nodes, models, idx, pose, rank);
      case Group(children) =>
        VisitAllKeepsSignedPerm(nodes, models, children, rank[idx], pose, rank);
      case Shape(ms) =>
        ShapeKeepsPose(models, ms, pose);
    }
  }

  lemma {:induction false} TransformKeepsSignedPerm(nodes: seq<SceneNode>, models: seq<Model>, idx: nat, pose: Pose,
                                                   rank: seq<nat>)
    requires Ranked(nodes, rank)
    requires idx < |nodes| && rank[idx] > 0 && nodes[idx].Transform?
    requires IsSignedPerm(pose.rot)
    ensures Visit(nodes, models, idx, pose, rank).Some? ==> SignedPermPlacements(Visit(nodes, models, idx, pose, rank).value)
    decreases Measure(nodes, rank, idx), 0, 0
  {
    var frames, child := nodes[idx].frames, nodes[idx].child;
    EnterKeepsSignedPerm(pose, frames);
    assert Visit(nodes, models, idx, pose, rank) == Visit(nodes, models, child, Enter(pose, frames), rank);
    VisitKeepsSignedPerm(nodes, models, child, Enter(pose, frames), rank);
  }

  lemma {:induction false} VisitAllKeepsSignedPerm(nodes: seq<SceneNode>, models: seq<Model>, cs: seq<nat>, bound: nat, pose: Pose,
                                                  rank: seq<nat>)
    requires Ranked(nodes, rank)
    requires bound > 0
    requires forall c :: c in cs && c < |nodes| ==> 0 < rank[c] < bound
    requires IsSignedPerm(pose.rot)
    ensures VisitAll(nodes, models, cs, bound, pose, rank).Some? ==>
      SignedPermPlacements(VisitAll(nodes, models, cs, bound, pose, rank).value)
    decreases bound, 0, |cs|
  {
    if cs != [] {
      VisitAllKeepsSignedPerm(nodes, models, cs[..|cs| - 1], bound, pose, rank);
      VisitKeepsSignedPerm(nodes, models, cs[|cs| - 1], pose, rank);
    }
  }

  /** Every model the walk renders is one of the scene's models. */
  lemma {:induction false} VisitRendersSceneModels(nodes: seq<SceneNode>, models: seq<Model>, idx: nat, pose: Pose, rank: seq<nat>)
    requires Ranked(nodes, rank)
    requires idx < |nodes| ==> rank[idx] > 0
    ensures Visit(nodes, models, idx, pose, rank).Some? ==>
      forall k :: 0 <= k < |Visit(nodes, models, idx, pose, rank).value| ==>
        Visit(nodes, models, idx, pose, rank).value[k].model in models
    decreases Measure(nodes, rank, idx), 1, 0
  {
    if idx < |nodes| {
      match nodes[idx]
      case Transform(frames, child) =>
        VisitRendersSceneModels(nodes, models, child, Enter(pose, frames), rank);
      case Group(children) =>
        VisitAllRendersSceneModels(nodes, models, children, rank[idx], pose, rank);
      case Shape(ms) =>
        ShapeKeepsPose(models, ms, pose);
    }
  }

  lemma {:induction false} VisitAllRendersSceneModels(nodes: seq<SceneNode>, models: seq<Model>, cs: seq<nat>, bound: nat, pose: Pose,
                                                     rank: seq<nat>)
    requires Ranked(nodes, rank)
    requires bound > 0
    requires forall c :: c in cs && c < |nodes| ==> 0 < rank[c] < bound
    ensures VisitAll(nodes, models, cs, bound, pose, rank).Some? ==>
      forall k :: 0 <= k < |VisitAll(nodes, models, cs, bound, pose, rank).value| ==>
        VisitAll(nodes, models, cs, bound, pose, rank).value[k].model in models
    decreases bound, 0, |cs|
  {
    if cs != [] {
      VisitAllRendersSceneModels(nodes, models, cs[..|cs| - 1], bound, pose, rank);
      VisitRendersSceneModels(nodes, models, cs[|cs| - 1], pose, rank);
    }
  }

  /** Rendering never panics when every placement is rigid and every model well formed. */
  lemma {:induction false} BuildNeverFails(st: State, palette: seq<Rgb>, ps: seq<Placement>)
    requires RigidPlacements(ps) && WellFormedPlacements(ps)
    ensures Build(st, palette, ps).Some?
    decreases |ps|
  {
    if ps != [] {
      var p := ps[0];
      RenderNeverFails(st.chunks, palette, p.model, p.pose.rot, p.pose.trans);
      assert forall k :: 0 <= k < |ps[1..]| ==> ps[1..][k] == ps[k + 1];
      BuildNeverFails(RenderPlacement(st, palette, p).value, palette, ps[1..]);
    }
  }

  /**
   * With well-formed models, `new_from` can only fail on a node index outside
   * the table: once the walk resolves, every `set(..).unwrap()` holds.
   */
  lemma SceneRendersWhenWalkResolves(nodes: seq<SceneNode>, models: seq<Model>, palette: seq<Rgb>, offset: Vec3, rank: seq<nat>)
    requires Ranked(nodes, rank) && (0 < |nodes| ==> rank[0] > 0)
    requires forall k :: 0 <= k < |models| ==> WellFormed(models[k])
    requires Visit(nodes, models, 0, Pose(IDENTITY, offset), rank).Some?
    ensures Build(State(map[], []), palette, Visit(nodes, models, 0, Pose(IDENTITY, offset), rank).value).Some?
  {
    var ps := Visit(nodes, models, 0, Pose(IDENTITY, offset), rank).value;
    assert IsSignedPerm(IDENTITY);
    VisitKeepsSignedPerm(nodes, models, 0, Pose(IDENTITY, offset), rank);
    VisitRendersSceneModels(nodes, models, 0, Pose(IDENTITY, offset), rank);
    BuildNeverFails(State(map[], []), palette, ps);
  }

  /** Rendering rigid placements of well-formed models keeps every filled cell inside the AABB list. */
  lemma {:induction false} BuildKeepsCovered(st: State, palette: seq<Rgb>, ps: seq<Placement>)
    requires RigidPlacements(ps) && WellFormedPlacements(ps)
    requires Covered(st.chunks, st.aabbs)
    requires Build(st, palette, ps).Some?
    ensures Covered(Build(st, palette, ps).value.chunks, Build(st, palette, ps).value.aabbs)
    decreases |ps|
  {
    if ps != [] {
      var p := ps[0];
      RenderKeepsCovered(st.chunks, st.aabbs, palette, p.model, p.pose.rot, p.pose.trans);
      assert forall k :: 0 <= k < |ps[1..]| ==> ps[1..][k] == ps[k + 1];
      BuildKeepsCovered(RenderPlacement(st, palette, p).value, palette, ps[1..]);
    }
  }

  /**
   * Every cell `new_from` fills lies inside one of the AABBs it returns, so
   * the fill loop's AABB filter never drops a placed voxel.
   */
  lemma SceneCovered(nodes: seq<SceneNode>, models: seq<Model>, palette: seq<Rgb>, offset: Vec3, rank: seq<nat>)
    requires Ranked(nodes, rank) && (0 < |nodes| ==> rank[0] > 0)
    requires forall k :: 0 <= k < |models| ==> WellFormed(models[k])
    requires Visit(nodes, models, 0, Pose(IDENTITY, offset), rank).Some?
    ensures var built := Build(State(map[], []), palette, Visit(nodes, models, 0, Pose(IDENTITY, offset), rank).value);
      built.Some? && Covered(built.value.chunks, built.value.aabbs)
  {
    var ps := Visit(nodes, models, 0, Pose(IDENTITY, offset), rank).value;
    SceneRendersWhenWalkResolves(nodes, models, palette, offset, rank);
    assert IsSignedPerm(IDENTITY);
    VisitKeepsSignedPerm(nodes, models, 0, Pose(IDENTITY, offset), rank);
    VisitRendersSceneModels(nodes, models, 0, Pose(IDENTITY, offset), rank);
    BuildKeepsCovered(State(map[], []), palette, ps);
  }

  /**
   * `insert_scene`: walk from node `idx` under (`rot`, `trans`), rendering into
   * `scene` and appending to `aabbs`.  `ok` is false where the source panics;
   * when it is true the grid and the list are `Build` of `Visit`.
   */
  method InsertScene(nodes: seq<SceneNode>, models: seq<Model>, palette: seq<Rgb>, idx: nat, rot: Mat3, trans: Vec3,
                     scene: SparseScene, aabbs: seq<Aabb>, ghost rank: seq<nat>)
    returns (aabbsOut: seq<Aabb>, ok: bool)
    requires Ranked(nodes, rank)
    requires idx < |nodes| ==> rank[idx] > 0
    modifies scene
    decreases Measure(nodes, rank, idx)
    ensures var walk := Visit(nodes, models, idx, Pose(rot, trans), rank);
      ok <==> walk.Some? && Build(State(old(scene.chunks), aabbs), palette, walk.value).Some?
    ensures ok ==>
      Build(State(old(scene.chunks), aabbs), palette, Visit(nodes, models, idx, Pose(rot, trans), rank).value)
        == Some(State(scene.chunks, aabbsOut))
  {
    if idx >= |nodes| {
      return aabbs, false;
    }
    match nodes[idx]
    case Transform(frames, child) => {
      var rot', trans' := rot, trans;
      if |frames| > 0 {
        var t := frames[0].t.GetOr(ZERO);
        var r := FrameRotation(frames[0].r);
        trans' := trans'.Plus(rot'.Apply(t));
        rot' := rot'.Times(r);
      }
      aabbsOut, ok := InsertScene(nodes, models, palette, child, rot', trans', scene, aabbs, rank);
    }
    case Group(children) => {
      aabbsOut, ok := InsertChildren(nodes, models, palette, children, rank[idx], rot, trans, scene, aabbs, rank);
    }
    case Shape(ms) => {
      aabbsOut, ok := InsertShape(models, palette, ms, rot, trans, scene, aabbs);
    }
  }

  /** The `for child in children` loop of a group node (src/main.rs:176-188). */
  method InsertChildren(nodes: seq<SceneNode>, models: seq<Model>, palette: seq<Rgb>, children: seq<nat>, ghost bound: nat,
                        rot: Mat3, trans: Vec3, scene: SparseScene, aabbs: seq<Aabb>, ghost rank: seq<nat>)
    returns (aabbsOut: seq<Aabb>, ok: bool)
    requires Ranked(nodes, rank) && bound > 0
    requires forall c :: c in children && c < |nodes| ==> 0 < rank[c] < bound
    modifies scene
    decreases bound, 0
    ensures var walk := VisitAll(nodes, models, children, bound, Pose(rot, trans), rank);
      ok <==> walk.Some? && Build(State(old(scene.chunks), aabbs), palette, walk.value).Some?
    ensures ok ==>
      Build(State(old(scene.chunks), aabbs), palette, VisitAll(nodes, models, children, bound, Pose(rot, trans), rank).value)
        == Some(State(scene.chunks, aabbsOut))
  {
    var pose := Pose(rot, trans);
    ghost var start := State(scene.chunks, aabbs);
    aabbsOut := aabbs;
    var k := 0;
    assert children[..0] == [];
    assert Build(start, palette, []) == Some(start);
    while k < |children|
      invariant 0 <= k <= |children|
      invariant VisitAll(nodes, models, children[..k], bound, pose, rank).Some?
      invariant Build(start, palette, VisitAll(nodes, models, children[..k], bound, pose, rank).value)
                == Some(State(scene.chunks, aabbsOut))
    {
      ghost var here := State(scene.chunks, aabbsOut);
      var childOk;
      aabbsOut, childOk := InsertScene(nodes, models, palette, children[k], rot, trans, scene, aabbsOut, rank);
      if !childOk {
        ChildPanics(nodes, models, palette, children, k, bound, pose, rank, start, here);
        return aabbsOut, false;
      }
      ChildContinues(nodes, models, palette, children, k, bound, pose, rank, start, here);
      k := k + 1;
    }
    assert children[..k] == children;
    return aabbsOut, true;
  }

  /** Walking one more child of a group appends that child's walk. */
  lemma PrefixStep(nodes: seq<SceneNode>, models: seq<Model>, cs: seq<nat>, k: nat, bound: nat, pose: Pose, rank: seq<nat>)
    requires Ranked(nodes, rank) && bound > 0
    requires forall c :: c in cs && c < |nodes| ==> 0 < rank[c] < bound
    requires k < |cs|
    ensures VisitAll(nodes, models, cs[..k + 1], bound, pose, rank)
            == Join(VisitAll(nodes, models, cs[..k], bound, pose, rank), Visit(nodes, models, cs[k], pose, rank))
  {
    assert cs[..k + 1][..k] == cs[..k];
    assert cs[..k + 1][k] == cs[k];
  }

  /**
   * After the children `cs[..k]` have rendered to `here`, a child `cs[k]`
   * whose walk and build succeed from `here` continues the group's build.
   */
  lemma ChildContinues(nodes: seq<SceneNode>, models: seq<Model>, palette: seq<Rgb>, cs: seq<nat>, k: nat, bound: nat,
                       pose: Pose, rank: seq<nat>, start: State, here: State)
    requires Ranked(nodes, rank) && bound > 0
    requires forall c :: c in cs && c < |nodes| ==> 0 < rank[c] < bound
    requires k < |cs|
    requires VisitAll(nodes, models, cs[..k], bound, pose, rank).Some?
    requires Build(start, palette, VisitAll(nodes, models, cs[..k], bound, pose, rank).value) == Some(here)
    requires Visit(nodes, models, cs[k], pose, rank).Some?
    ensures VisitAll(nodes, models, cs[..k + 1], bound, pose, rank).Some?
    ensures Build(start, palette, VisitAll(nodes, models, cs[..k + 1], bound, pose, rank).value)
            == Build(here, palette, Visit(nodes, models, cs[k], pose, rank).value)
  {
    PrefixStep(nodes, models, cs, k, bound, pose, rank);
    BuildAppend(start, palette, VisitAll(nodes, models, cs[..k], bound, pose, rank).value,
                Visit(nodes, models, cs[k], pose, rank).value);
  }

  /**
   * After the children `cs[..k]` have rendered to `here`, a child `cs[k]`
   * whose walk or build panics from `here` makes the whole group panic.
   */
  lemma ChildPanics(nodes: seq<SceneNode>, models: seq<Model>, palette: seq<Rgb>, cs: seq<nat>, k: nat, bound: nat,
                    pose: Pose, rank: seq<nat>, start: State, here: State)
    requires Ranked(nodes, rank) && bound > 0
    requires forall c :: c in cs && c < |nodes| ==> 0 < rank[c] < bound
    requires k < |cs|
    requires VisitAll(nodes, models, cs[..k], bound, pose, rank).Some?
    requires Build(start, palette, VisitAll(nodes, models, cs[..k], bound, pose, rank).value) == Some(here)
    requires !(Visit(nodes, models, cs[k], pose, rank).Some? && Build(here, palette, Visit(nodes, models, cs[k], pose, rank).value).Some?)
    ensures !(VisitAll(nodes, models, cs, bound, pose, rank).Some?
              && Build(start, palette, VisitAll(nodes, models, cs, bound, pose, rank).value).Some?)
  {
    assert cs == cs[..k + 1] + cs[k + 1..];
    PrefixStep(nodes, models, cs, k, bound, pose, rank);
    VisitAllAppend(nodes, models, cs[..k + 1], cs[k + 1..], bound, pose, rank);
    var whole := VisitAll(nodes, models, cs, bound, pose, rank);
    if whole.Some? {
      var done := VisitAll(nodes, models, cs[..k], bound, pose, rank).value;
      var step := Visit(nodes, models, cs[k], pose, rank).value;
      var rest := VisitAll(nodes, models, cs[k + 1..], bound, pose, rank).value;
      AppendAssoc(done, step, rest);
      BuildAppend(start, palette, done + step, rest);
      BuildAppend(start, palette, done, step);
    }
  }

  /** The `for model in models` loop of a shape node (src/main.rs:189-195). */
  method InsertShape(models: seq<Model>, palette: seq<Rgb>, ms: seq<nat>, rot: Mat3, trans: Vec3,
                     scene: SparseScene, aabbs: seq<Aabb>)
    returns (aabbsOut: seq<Aabb>, ok: bool)
    modifies scene
    ensures var ps := ShapePlacements(models, ms, Pose(rot, trans));
      ok <==> Build(State(old(scene.chunks), aabbs), palette, ps).Some?
    ensures ok ==>
      Build(State(old(scene.chunks), aabbs), palette, ShapePlacements(models, ms, Pose(rot, trans)))
        == Some(State(scene.chunks, aabbsOut))
  {
    var pose := Pose(rot, trans);
    ghost var start := State(scene.chunks, aabbs);
    aabbsOut := aabbs;
    var k := 0;
    assert ms[..0] == [];
    assert Build(start, palette, ShapePlacements(models, ms[..0], pose)) == Some(start);
    while k < |ms|
      invariant 0 <= k <= |ms|
      invariant Build(start, palette, ShapePlacements(models, ms[..k], pose)) == Some(State(scene.chunks, aabbsOut))
    {
      if ms[k] < |models| {
        ghost var here := State(scene.chunks, aabbsOut);
        ShapeRenderStep(start, palette, models, ms, k, pose, here);
        var renderOk;
        aabbsOut, renderOk := RenderOne(palette, Placement(models[ms[k]], pose), scene, aabbsOut);
        if !renderOk {
          return aabbsOut, false;
        }
      } else {
        ShapeStep(models, ms, k, pose);
      }
      k := k + 1;
    }
    assert ms[..k] == ms;
    return aabbsOut, true;
  }

  /** One `render_model` call of the shape loop, as `RenderPlacement` states it. */
  method RenderOne(palette: seq<Rgb>, p: Placement, scene: SparseScene, aabbs: seq<Aabb>)
    returns (aabbsOut: seq<Aabb>, ok: bool)
    modifies scene
    ensures ok <==> RenderPlacement(State(old(scene.chunks), aabbs), palette, p).Some?
    ensures ok ==> RenderPlacement(State(old(scene.chunks), aabbs), palette, p) == Some(State(scene.chunks, aabbsOut))
  {
    aabbsOut, ok := RenderModel(palette, p.model, scene, aabbs, p.pose.rot, p.pose.trans);
  }

  /**
   * After the ids `ms[..k]` have rendered to `here`, id `ms[k]` continues the
   * build with one render; if that render panics, so does the whole shape.
   */
  lemma ShapeRenderStep(start: State, palette: seq<Rgb>, models: seq<Model>, ms: seq<nat>, k: nat, pose: Pose, here: State)
    requires k < |ms| && ms[k] < |models|
    requires Build(start, palette, ShapePlacements(models, ms[..k], pose)) == Some(here)
    ensures Build(start, palette, ShapePlacements(models, ms[..k + 1], pose))
            == RenderPlacement(here, palette, Placement(models[ms[k]], pose))
    ensures RenderPlacement(here, palette, Placement(models[ms[k]], pose)).None? ==>
            Build(start, palette, ShapePlacements(models, ms, pose)).None?
  {
    var done := ShapePlacements(models, ms[..k], pose);
    var p := Placement(models[ms[k]], pose);
    ShapeStep(models, ms, k, pose);
    BuildOne(here, palette, p);
    BuildAppend(start, palette, done, [p]);
    ShapePrefix(models, ms, k + 1, pose);
    var all := ShapePlacements(models, ms, pose);
    BuildAppend(start, palette, done + [p], all[|done + [p]|..]);
  }

  lemma ShapeStep(models: seq<Model>, ms: seq<nat>, k: nat, pose: Pose)
    requires k < |ms|
    ensures ms[k] < |models| ==>
      ShapePlacements(models, ms[..k + 1], pose) == ShapePlacements(models, ms[..k], pose) + [Placement(models[ms[k]], pose)]
    ensures ms[k] >= |models| ==> ShapePlacements(models, ms[..k + 1], pose) == ShapePlacements(models, ms[..k], pose)
  {
    assert ms[..k + 1][..k] == ms[..k];
    assert ms[..k + 1][k] == ms[k];
    assert ShapePlacements(models, ms[..k], pose) + [] == ShapePlacements(models, ms[..k], pose);
  }

  /** The placements of a prefix of a shape's ids are a prefix of the shape's placements. */
  lemma {:induction false} ShapePrefix(models: seq<Model>, ms: seq<nat>, k: nat, pose: Pose)
    requires k <= |ms|
    ensures var pre := ShapePlacements(models, ms[..k], pose);
      var all := ShapePlacements(models, ms, pose);
      |pre| <= |all| && all == pre + all[|pre|..]
    decreases |ms| - k
  {
    if k < |ms| {
      ShapePrefix(models, ms, k + 1, pose);
      assert ms[..k + 1][..k] == ms[..k];
    } else {
      assert ms[..k] == ms;
    }
  }

  /**
   * `SparseScene::new_from`: walk from root node 0 under the identity and the
   * placement offset into an empty grid and an empty AABB list.
   */
  method NewFrom(nodes: seq<SceneNode>, models: seq<Model>, palette: seq<Rgb>, offset: Vec3, ghost rank: seq<nat>)
    returns (scene: SparseScene, aabbs: seq<Aabb>, ok: bool)
    requires Ranked(nodes, rank) && (0 < |nodes| ==> rank[0] > 0)
    ensures fresh(scene)
    ensures var walk := Visit(nodes, models, 0, Pose(IDENTITY, offset), rank);
      ok <==> walk.Some? && Build(State(map[], []), palette, walk.value).Some?
    ensures ok ==>
      Build(State(map[], []), palette, Visit(nodes, models, 0, Pose(IDENTITY, offset), rank).value)
        == Some(State(scene.chunks, aabbs))
  {
    scene := new SparseScene();
    aabbs, ok := InsertScene(nodes, models, palette, 0, IDENTITY, offset, scene, [], rank);
  }
}
