/**
 * The forest renderer's per-frame scan (components/InstancedTrees.tsx).
 *
 * Every frame walks the tree registry in index order. A destroyed tree's four
 * instance slots are parked at a sentinel far below the ground; a live tree
 * inside the tornado's planar kill radius is reported through `onDestroy`
 * (returned here as the sequence of reported ids) and its slots are left as
 * they were; every other tree gets its trunk and three foliage layers laid
 * out from its position and scale. All writes go through one reused `dummy`
 * object whose scale and rotation survive from one tree, and one frame, to
 * the next; the sentinel only resets its position.
 */
module InstancedTrees {
  import opened Numerics
  import opened Types

  /** A tree dies when its planar distance to the tornado is below 8 (squared: 64). */
  const KillRadiusSq: real := 64.0
  const SentinelPosition: Vec3 := Vec3(0.0, -1000.0, 0.0)
  const Unrotated: Vec3 := Vec3(0.0, 0.0, 0.0)

  /** What `dummy.updateMatrix()` composes: position, scale and Euler rotation. */
  datatype Transform = Transform(position: Vec3, scale: Vec3, rotation: Vec3)

  datatype Layer = TrunkLayer | Foliage1 | Foliage2 | Foliage3

  /** The kill test: only x and z count. */
  predicate InKillZone(tree: TreeData, tornado: Vec3) {
    tree.position.Sub(tornado).PlanarSq() < KillRadiusSq
  }

  /** A tree that the scan reports to `onDestroy` this frame. */
  predicate Fires(tree: TreeData, tornado: Vec3) {
    !tree.destroyed && InKillZone(tree, tornado)
  }

  /** The transform a surviving tree gets in each of the four meshes. */
  function LayerTransform(tree: TreeData, layer: Layer): Transform {
    var p, s := tree.position, tree.scale;
    var trunkHeight := s * 4.0;
    match layer
    case TrunkLayer => Transform(Vec3(p.x, p.y + trunkHeight / 2.0, p.z), Vec3(1.0, trunkHeight, 1.0), Unrotated)
    case Foliage1 => Transform(Vec3(p.x, p.y + trunkHeight + 2.0, p.z), Vec3(s * 3.0, 3.0, s * 3.0), Unrotated)
    case Foliage2 => Transform(Vec3(p.x, p.y + trunkHeight + 4.5, p.z), Vec3(s * 2.0, 2.5, s * 2.0), Unrotated)
    case Foliage3 => Transform(Vec3(p.x, p.y + trunkHeight + 6.0, p.z), Vec3(s * 1.0, 1.5, s * 1.0), Unrotated)
  }

  /** The sentinel slot: the dummy's current scale and rotation, moved far below the ground. */
  function Sentinel(dummy: Transform): Transform {
    dummy.(position := SentinelPosition)
  }

  /** The dummy object after the scan has handled one more tree. */
  function DummyStep(tree: TreeData, tornado: Vec3, dummy: Transform): Transform {
    if tree.destroyed then Sentinel(dummy)
    else if InKillZone(tree, tornado) then dummy
    else LayerTransform(tree, Foliage3)
  }

  /** The dummy object after the scan has handled all of `trees`, starting from `d0`. */
  function DummyAfter(trees: seq<TreeData>, tornado: Vec3, d0: Transform): Transform {
    if trees == [] then d0
    else DummyStep(trees[|trees| - 1], tornado, DummyAfter(trees[..|trees| - 1], tornado, d0))
  }

  /**
   * Slot `i` of mesh `layer` after a frame, given its value `before`:
   * destroyed trees get the sentinel, reported trees keep their slot, the
   * others get their layout.
   */
  function SlotAfter(trees: seq<TreeData>, tornado: Vec3, d0: Transform, i: int, layer: Layer, before: Transform): Transform
    requires 0 <= i < |trees|
  {
    if trees[i].destroyed then Sentinel(DummyAfter(trees[..i], tornado, d0))
    else if InKillZone(trees[i], tornado) then before
    else LayerTransform(trees[i], layer)
  }

  /** The indices of the trees reported to `onDestroy`, in scan order. */
  function Firing(trees: seq<TreeData>, tornado: Vec3): (f: seq<int>)
    ensures forall k :: 0 <= k < |f| ==> 0 <= f[k] < |trees|
  {
    if trees == [] then []
    else
      var n := |trees| - 1;
      Firing(trees[..n], tornado) + (if Fires(trees[n], tornado) then [n] else [])
  }

  /** The ids at the given indices. */
  function IdsAt(trees: seq<TreeData>, f: seq<int>): (ids: seq<int>)
    requires forall k :: 0 <= k < |f| ==> 0 <= f[k] < |trees|
    ensures |ids| == |f|
    ensures forall k :: 0 <= k < |f| ==> ids[k] == trees[f[k]].id
  {
    if f == [] then [] else IdsAt(trees, f[..|f| - 1]) + [trees[f[|f| - 1]].id]
  }

  /**
   * Each tree is reported at most once per frame, in array order, and
   * exactly the live trees in the kill zone are reported.
   */
  lemma {:induction false} FiringExact(trees: seq<TreeData>, tornado: Vec3)
    ensures var f := Firing(trees, tornado);
      && (forall k, l :: 0 <= k < l < |f| ==> f[k] < f[l])
      && (forall i :: 0 <= i < |trees| ==> (i in f <==> Fires(trees[i], tornado)))
  {
    if trees != [] {
      var n := |trees| - 1;
      FiringExact(trees[..n], tornado);
      assert forall i :: 0 <= i < n ==> trees[..n][i] == trees[i];
    }
  }

  /** Scanning one more tree extends the report by that tree, if it fires, and moves the dummy by one step. */
  lemma ScanStep(trees: seq<TreeData>, tornado: Vec3, d0: Transform, i: int)
    requires 0 <= i < |trees|
    ensures Firing(trees[..i + 1], tornado) == Firing(trees[..i], tornado) + (if Fires(trees[i], tornado) then [i] else [])
    ensures DummyAfter(trees[..i + 1], tornado, d0) == DummyStep(trees[i], tornado, DummyAfter(trees[..i], tornado, d0))
  {
    assert trees[..i + 1][..i] == trees[..i];
  }

  /** Reporting one more index appends that tree's id. */
  lemma IdsAtSnoc(trees: seq<TreeData>, f: seq<int>, k: int)
    requires forall j :: 0 <= j < |f| ==> 0 <= f[j] < |trees|
    requires 0 <= k < |trees|
    ensures IdsAt(trees, f + [k]) == IdsAt(trees, f) + [trees[k].id]
  {
    assert (f + [k])[..|f|] == f;
  }

  /**
   * A destroyed tree is never reported and all four of its slots are parked at
   * the sentinel; the parked slot keeps the scale and rotation the dummy last
   * had, which is the top foliage block of the nearest surviving tree before it.
   */
  lemma DestroyedParked(trees: seq<TreeData>, tornado: Vec3, d0: Transform, i: int, layer: Layer, before: Transform)
    requires 0 <= i < |trees| && trees[i].destroyed
    ensures i !in Firing(trees, tornado)
    ensures SlotAfter(trees, tornado, d0, i, layer, before).position == SentinelPosition
    ensures i > 0 && !Fires(trees[i - 1], tornado) && !trees[i - 1].destroyed ==>
      SlotAfter(trees, tornado, d0, i, layer, before).scale == Vec3(trees[i - 1].scale, 1.5, trees[i - 1].scale)
  {
    FiringExact(trees, tornado);
    if i > 0 {
      assert trees[..i][..i - 1] == trees[..i - 1];
    }
  }

  /** The kill test ignores the height of both the tree and the tornado. */
  lemma KillIgnoresHeight(tree: TreeData, tornado: Vec3, treeY: real, tornadoY: real)
    ensures InKillZone(tree.(position := tree.position.(y := treeY)), tornado.(y := tornadoY))
        <==> InKillZone(tree, tornado)
  {
  }

  /** Planar distance: the kill test is "closer than 8 in the ground plane". */
  lemma KillZoneIsPlanarDistance(m: MathLib, tree: TreeData, tornado: Vec3)
    requires Lawful(m)
    ensures InKillZone(tree, tornado) <==>
      Dist(m, tree.position.(y := 0.0), tornado.(y := 0.0)) < 8.0
  {
    DistBelow(m, tree.position.(y := 0.0), tornado.(y := 0.0), 8.0);
  }

  /**
   * The layout stacks the layers: all four are centred on the tree's x and z,
   * the trunk stands on the tree's base and is `4 * scale` tall, and the three
   * foliage blocks sit 2, 4.5 and 6 above the trunk's top with widths 3, 2 and
   * 1 times the scale.
   */
  lemma LayersStacked(tree: TreeData)
    requires tree.scale > 0.0
    ensures forall l: Layer ::
      && LayerTransform(tree, l).position.x == tree.position.x
      && LayerTransform(tree, l).position.z == tree.position.z
      && LayerTransform(tree, l).rotation == Unrotated
    ensures var t := LayerTransform(tree, TrunkLayer);
      && t.position.y - t.scale.y / 2.0 == tree.position.y
      && t.position.y + t.scale.y / 2.0 == tree.position.y + 4.0 * tree.scale
    ensures var top := tree.position.y + 4.0 * tree.scale;
      && LayerTransform(tree, Foliage1).position.y == top + 2.0
      && LayerTransform(tree, Foliage2).position.y == top + 4.5
      && LayerTransform(tree, Foliage3).position.y == top + 6.0
    ensures LayerTransform(tree, Foliage1).scale.x > LayerTransform(tree, Foliage2).scale.x > LayerTransform(tree, Foliage3).scale.x > 0.0
  {
  }

  /**
   * The four instanced meshes (one slot per tree, by index) and the shared
   * dummy object. The tree registry itself is only read.
   */
  class TreeInstances {
    var dummy: Transform
    const trunk: array<Transform>
    const foliage1: array<Transform>
    const foliage2: array<Transform>
    const foliage3: array<Transform>

    predicate Valid()
      reads this
    {
      && trunk != foliage1 && trunk != foliage2 && trunk != foliage3
      && foliage1 != foliage2 && foliage1 != foliage3 && foliage2 != foliage3
      && foliage1.Length == trunk.Length && foliage2.Length == trunk.Length && foliage3.Length == trunk.Length
    }

    /** The meshes are created with one slot per tree. */
    constructor (count: nat, initial: Transform)
      ensures Valid() && trunk.Length == count
      ensures fresh(trunk) && fresh(foliage1) && fresh(foliage2) && fresh(foliage3)
      ensures dummy == initial
    {
      dummy := initial;
      trunk := new Transform[count](_ => initial);
      foliage1 := new Transform[count](_ => initial);
      foliage2 := new Transform[count](_ => initial);
      foliage3 := new Transform[count](_ => initial);
    }

    /** Lays out one surviving tree, updating the dummy as the four writes do. */
    method Place(i: int, tree: TreeData)
      requires Valid() && 0 <= i < trunk.Length
      modifies this, trunk, foliage1, foliage2, foliage3
      ensures Valid()
      ensures dummy == LayerTransform(tree, Foliage3)
      ensures trunk[i] == LayerTransform(tree, TrunkLayer) && foliage1[i] == LayerTransform(tree, Foliage1)
      ensures foliage2[i] == LayerTransform(tree, Foliage2) && foliage3[i] == LayerTransform(tree, Foliage3)
      ensures forall j :: 0 <= j < trunk.Length && j != i ==>
        trunk[j] == old(trunk[j]) && foliage1[j] == old(foliage1[j])
        && foliage2[j] == old(foliage2[j]) && foliage3[j] == old(foliage3[j])
    {
      var p := tree.position;
      var trunkHeight := tree.scale * 4.0;
      dummy := dummy.(position := Vec3(p.x, p.y + trunkHeight / 2.0, p.z));
      dummy := dummy.(scale := Vec3(1.0, trunkHeight, 1.0));
      dummy := dummy.(rotation := Unrotated);
      trunk[i] := dummy;
      dummy := dummy.(position := Vec3(p.x, p.y + trunkHeight + 2.0, p.z));
      dummy := dummy.(scale := Vec3(tree.scale * 3.0, 3.0, tree.scale * 3.0));
      foliage1[i] := dummy;
      dummy := dummy.(position := Vec3(p.x, p.y + trunkHeight + 4.5, p.z));
      dummy := dummy.(scale := Vec3(tree.scale * 2.0, 2.5, tree.scale * 2.0));
      foliage2[i] := dummy;
      dummy := dummy.(position := Vec3(p.x, p.y + trunkHeight + 6.0, p.z));
      dummy := dummy.(scale := Vec3(tree.scale * 1.0, 1.5, tree.scale * 1.0));
      foliage3[i] := dummy;
    }

    /** Parks slot `i` of all four meshes at the sentinel. */
    method Park(i: int)
      requires Valid() && 0 <= i < trunk.Length
      modifies this, trunk, foliage1, foliage2, foliage3
      ensures Valid()
      ensures dummy == Sentinel(old(dummy))
      ensures trunk[i] == dummy && foliage1[i] == dummy && foliage2[i] == dummy && foliage3[i] == dummy
      ensures forall j :: 0 <= j < trunk.Length && j != i ==>
        trunk[j] == old(trunk[j]) && foliage1[j] == old(foliage1[j])
        && foliage2[j] == old(foliage2[j]) && foliage3[j] == old(foliage3[j])
    {
      dummy := dummy.(position := SentinelPosition);
      trunk[i] := dummy;
      foliage1[i] := dummy;
      foliage2[i] := dummy;
      foliage3[i] := dummy;
    }

    /**
     * The state after the scan has handled the first `i` trees, starting from
     * dummy `d0` and slot contents `t0`, `f10`, `f20`, `f30`: the dummy has
     * moved through those trees, their slots hold what the frame leaves there,
     * and the slots of the trees still to come are untouched.
     */
    ghost predicate Scanned(trees: seq<TreeData>, tornado: Vec3, d0: Transform,
                            t0: seq<Transform>, f10: seq<Transform>, f20: seq<Transform>, f30: seq<Transform>, i: int)
      reads this, trunk, foliage1, foliage2, foliage3
    {
      && Valid() && trunk.Length == |trees| && 0 <= i <= |trees|
      && |t0| == |trees| && |f10| == |trees| && |f20| == |trees| && |f30| == |trees|
      && dummy == DummyAfter(trees[..i], tornado, d0)
      && (forall j :: 0 <= j < i ==> trunk[j] == SlotAfter(trees, tornado, d0, j, TrunkLayer, t0[j]))
      && (forall j :: 0 <= j < i ==> foliage1[j] == SlotAfter(trees, tornado, d0, j, Foliage1, f10[j]))
      && (forall j :: 0 <= j < i ==> foliage2[j] == SlotAfter(trees, tornado, d0, j, Foliage2, f20[j]))
      && (forall j :: 0 <= j < i ==> foliage3[j] == SlotAfter(trees, tornado, d0, j, Foliage3, f30[j]))
      && (forall j :: i <= j < |trees| ==>
            trunk[j] == t0[j] && foliage1[j] == f10[j] && foliage2[j] == f20[j] && foliage3[j] == f30[j])
    }

    /** Handles tree `i` of the scan: parks, reports or lays out its four slots. */
    method Visit(trees: seq<TreeData>, tornado: Vec3, i: int, ghost d0: Transform,
                 ghost t0: seq<Transform>, ghost f10: seq<Transform>, ghost f20: seq<Transform>, ghost f30: seq<Transform>)
      returns (fired: bool)
      requires Scanned(trees, tornado, d0, t0, f10, f20, f30, i) && i < |trees|
      modifies this, trunk, foliage1, foliage2, foliage3
      ensures Scanned(trees, tornado, d0, t0, f10, f20, f30, i + 1)
      ensures fired == Fires(trees[i], tornado)
    {
      var tree := trees[i];
      assert trees[..i + 1][..i] == trees[..i];
      fired := false;
      if tree.destroyed {
        Park(i);
      } else if InKillZone(tree, tornado) {
        fired := true;
      } else {
        Place(i, tree);
      }
    }

    /** One frame of the scan; the result lists the ids passed to `onDestroy`, in call order. */
    method Frame(trees: seq<TreeData>, tornado: Vec3) returns (calls: seq<int>)
      requires Valid() && trunk.Length == |trees|
      modifies this, trunk, foliage1, foliage2, foliage3
      ensures Valid()
      ensures calls == IdsAt(trees, Firing(trees, tornado))
      ensures dummy == DummyAfter(trees, tornado, old(dummy))
      ensures forall i :: 0 <= i < |trees| ==>
        && trunk[i] == SlotAfter(trees, tornado, old(dummy), i, TrunkLayer, old(trunk[i]))
        && foliage1[i] == SlotAfter(trees, tornado, old(dummy), i, Foliage1, old(foliage1[i]))
        && foliage2[i] == SlotAfter(trees, tornado, old(dummy), i, Foliage2, old(foliage2[i]))
        && foliage3[i] == SlotAfter(trees, tornado, old(dummy), i, Foliage3, old(foliage3[i]))
    {
      ghost var d0, t0, f10, f20, f30 := dummy, trunk[..], foliage1[..], foliage2[..], foliage3[..];
      ghost var reported: seq<int> := [];
      calls := [];
      var i := 0;
      while i < |trees|
        invariant Scanned(trees, tornado, d0, t0, f10, f20, f30, i)
        invariant reported == Firing(trees[..i], tornado)
        invariant calls == IdsAt(trees, reported)
      {
        ScanStep(trees, tornado, d0, i);
        var fired := Visit(trees, tornado, i, d0, t0, f10, f20, f30);
        if fired {
          IdsAtSnoc(trees, reported, i);
          reported := reported + [i];
          calls := calls + [trees[i].id];
        }
        i := i + 1;
      }
      assert trees[..i] == trees;
    }
  }
}
