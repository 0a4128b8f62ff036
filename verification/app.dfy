/**
 * The game session held by the top-level component (App.tsx): the economy
 * handlers, the tree-destruction callback, the tornado pursuit and house
 * check, the clock, and the generation of the tree registry.
 *
 * Every handler is a functional updater in the source; each becomes a pure
 * function from the session before to the session after. Time stamps of
 * events (`Date.now()`) and random draws are parameters.
 */
module Game {
  import opened Numerics
  import opened Types
  import Terrain
  import Tablet
  import InstancedTrees
  import Player

  const TreeCount: nat := 2500
  const TreeSpread: real := 1400.0
  const TreeReward: int := 25
  const HouseReward: int := 1000
  const HousePos: Vec3 := Vec3(0.0, 0.0, 0.0)
  const HouseRadius: real := 45.0
  const TornadoStride: real := 5.5
  const ClockStep: real := 0.03
  const DayLength: real := 24.0
  const MaxHealth: real := 100.0
  const CarDamageShare: real := 0.1

  datatype Session = Session(
    phase: GamePhase,
    showTablet: bool,
    health: real,
    money: int,
    tornadoPos: Vec3,
    trees: seq<TreeData>,
    timeOfDay: real,
    upgrades: Upgrades,
    unlockedModels: seq<CarModelId>,
    isHouseDestroyed: bool,
    events: seq<Event>,
    placedCar: Option<CarData>)

  /** The session a fresh game starts from, before the tree registry is generated. */
  function InitialSession(): (s: Session)
    ensures s.money == 500 && s.health == MaxHealth && s.trees == [] && s.events == []
    ensures IsNight(s.timeOfDay) && !s.isHouseDestroyed
    ensures s.unlockedModels == [Scout] && s.placedCar.Some? && s.placedCar.value.model == Scout
    ensures s.phase == Start && !s.showTablet && s.timeOfDay == 20.0
    ensures s.tornadoPos == Vec3(600.0, 0.0, 600.0)
    ensures s.upgrades.engine == 0 && s.upgrades.chassis == 0 && s.upgrades.radar == 0
    ensures s.placedCar.Some? && s.placedCar.value.position == Vec3(35.0, 0.0, 35.0)
    ensures s.placedCar.Some? && s.placedCar.value.rotation == 0.0 && !s.placedCar.value.isDriving
    ensures s.placedCar.Some? && s.placedCar.value.health == 100.0
  {
    Session(
      Start, false, 100.0, 500, Vec3(600.0, 0.0, 600.0), [], 20.0,
      Upgrades(0, 0, 0), [Scout], false, [],
      Some(CarData(Scout, Vec3(35.0, 0.0, 35.0), 0.0, false, 100.0)))
  }

  /** `isNight`: the tornado is out, and hurts, in the evening and small hours. */
  predicate IsNight(t: real) {
    t > 18.0 || t < 6.0
  }

  // ---------------------------------------------------------------------------
  // Counting what the session records

  /** How many events of `kind` the list holds. */
  function CountKind(events: seq<Event>, kind: EventKind): nat {
    if events == [] then 0
    else CountKind(events[..|events| - 1], kind) + (if events[|events| - 1].kind == kind then 1 else 0)
  }

  /** How many trees of the registry are down. */
  function DestroyedCount(trees: seq<TreeData>): nat {
    if trees == [] then 0
    else DestroyedCount(trees[..|trees| - 1]) + (if trees[|trees| - 1].destroyed then 1 else 0)
  }

  lemma CountAppend(events: seq<Event>, e: Event, kind: EventKind)
    ensures CountKind(events + [e], kind) == CountKind(events, kind) + (if e.kind == kind then 1 else 0)
  {
    assert (events + [e])[..|events|] == events;
  }

  /** Knocking down one standing tree raises the count by one. */
  lemma {:induction false} DestroyedCountMark(trees: seq<TreeData>, i: int)
    requires 0 <= i < |trees| && !trees[i].destroyed
    ensures DestroyedCount(trees[i := trees[i].(destroyed := true)]) == DestroyedCount(trees) + 1
  {
    var n := |trees| - 1;
    var t := trees[i := trees[i].(destroyed := true)];
    if i == n {
      assert t[..n] == trees[..n];
    } else {
      assert t[..n] == trees[..n][i := trees[i].(destroyed := true)];
      DestroyedCountMark(trees[..n], i);
    }
  }

  /** Every registry entry carries its own index as id, as generation assigns them. */
  predicate IdsAreIndices(trees: seq<TreeData>) {
    forall i :: 0 <= i < |trees| ==> trees[i].id == i
  }

  predicate NoDuplicates<T(==)>(xs: seq<T>) {
    forall i, j :: 0 <= i < j < |xs| ==> xs[i] != xs[j]
  }

  /**
   * What every reachable session satisfies: money never goes negative,
   * upgrade levels stay in 0..5, the starter model stays unlocked and no
   * model is unlocked twice, health and car health stay in 0..100, the car
   * is always of an unlocked model, the clock stays in [0, 24), the house
   * fell once if and only if it is marked destroyed, and there is one tree
   * event per fallen tree.
   */
  predicate Inv(s: Session) {
    && s.money >= 0
    && (forall k: UpgradeKind :: 0 <= s.upgrades.Level(k) <= Tablet.MaxLevel)
    && Scout in s.unlockedModels
    && NoDuplicates(s.unlockedModels)
    && 0.0 <= s.health <= MaxHealth
    && (s.placedCar.Some? ==>
         && 0.0 <= s.placedCar.value.health <= MaxHealth
         && s.placedCar.value.model in s.unlockedModels)
    && 0.0 <= s.timeOfDay < DayLength
    && CountKind(s.events, HouseFell) == (if s.isHouseDestroyed then 1 else 0)
    && CountKind(s.events, TreeFell) == DestroyedCount(s.trees)
    && IdsAreIndices(s.trees)
  }

  // ---------------------------------------------------------------------------
  // Health

  /**
   * `handleDamage`: health drops by `amount` but not below 0 and stays 0
   * once 0; while the player drives, the car takes a tenth of the damage.
   */
  function HandleDamage(s: Session, amount: real): Session {
    var health := if s.health <= 0.0 then 0.0 else Max(0.0, s.health - amount);
    var car :=
      if s.placedCar.Some? && s.placedCar.value.isDriving then
        Some(s.placedCar.value.(health := Max(0.0, s.placedCar.value.health - amount * CarDamageShare)))
      else s.placedCar;
    s.(health := health, placedCar := car)
  }

  lemma DamageEffect(s: Session, amount: real)
    requires amount >= 0.0
    ensures var r := HandleDamage(s, amount);
      && r.health >= 0.0
      && (s.health <= 0.0 ==> r.health == 0.0)
      && (0.0 < s.health && amount <= s.health ==> r.health == s.health - amount)
      && (0.0 < s.health && amount > s.health ==> r.health == 0.0)
      && r.health <= Max(0.0, s.health)
      && (s.placedCar.Some? && s.placedCar.value.isDriving ==>
           && r.placedCar.Some?
           && r.placedCar.value == s.placedCar.value.(health := r.placedCar.value.health)
           && r.placedCar.value.health == Max(0.0, s.placedCar.value.health - amount / 10.0))
      && (s.placedCar.None? || !s.placedCar.value.isDriving ==> r.placedCar == s.placedCar)
      && r.(health := s.health, placedCar := s.placedCar) == s
  {
  }

  // ---------------------------------------------------------------------------
  // Shop

  /** `handleRepairCar`: 250 credits restore the car to full health. */
  function HandleRepairCar(s: Session): Session {
    if s.money >= Tablet.RepairCost && s.placedCar.Some? then
      s.(money := s.money - Tablet.RepairCost, placedCar := Some(s.placedCar.value.(health := MaxHealth)))
    else s
  }

  lemma RepairEffect(s: Session)
    ensures var r := HandleRepairCar(s);
      && (s.money >= 250 && s.placedCar.Some? ==>
           && r.money == s.money - 250 && r.money >= 0
           && r.placedCar == Some(s.placedCar.value.(health := 100.0))
           && r.(money := s.money, placedCar := s.placedCar) == s)
      && (s.money < 250 || s.placedCar.None? ==> r == s)
  {
  }

  /** `handleUpgrade`: the next level of upgrade `k` for (level + 1) * 400 credits, up to level 5. */
  function HandleUpgrade(s: Session, k: UpgradeKind): Session {
    var level := s.upgrades.Level(k);
    var cost := (level + 1) * 400;
    if s.money >= cost && level < 5 then
      s.(money := s.money - cost, upgrades := s.upgrades.WithLevel(k, level + 1))
    else s
  }

  lemma UpgradeEffect(s: Session, k: UpgradeKind)
    ensures var r := HandleUpgrade(s, k);
      var level := s.upgrades.Level(k);
      var cost := Tablet.UpgradeCost(level);
      && (r != s <==> s.money >= cost && level < 5)
      && (r != s ==>
           && r.money == s.money - cost && r.money >= 0
           && r.upgrades.Level(k) == level + 1 <= 5
           && (forall j :: j != k ==> r.upgrades.Level(j) == s.upgrades.Level(j))
           && r.(money := s.money, upgrades := s.upgrades) == s)
  {
    var r := HandleUpgrade(s, k);
    if s.money >= Tablet.UpgradeCost(s.upgrades.Level(k)) && s.upgrades.Level(k) < 5 {
      assert r.upgrades.Level(k) != s.upgrades.Level(k);
    }
  }

  /**
   * `handleBuyInterceptor`: a locked model the player can pay for is bought
   * and becomes the car's model, with the car repaired; an unlocked model is
   * selected for free.
   */
  function HandleBuyInterceptor(s: Session, id: CarModelId, price: int): Session {
    if s.money >= price && id !in s.unlockedModels then
      s.(money := s.money - price,
         unlockedModels := s.unlockedModels + [id],
         placedCar := if s.placedCar.Some? then Some(s.placedCar.value.(model := id, health := MaxHealth)) else None)
    else if id in s.unlockedModels then
      s.(placedCar := if s.placedCar.Some? then Some(s.placedCar.value.(model := id)) else None)
    else s
  }

  lemma BuyEffect(s: Session, id: CarModelId, price: int)
    ensures var r := HandleBuyInterceptor(s, id, price);
      && (id !in s.unlockedModels && s.money >= price ==>
           && r.money == s.money - price
           && r.unlockedModels == s.unlockedModels + [id]
           && multiset(r.unlockedModels)[id] == 1
           && (s.placedCar.Some? ==> r.placedCar == Some(s.placedCar.value.(model := id, health := 100.0)))
           && r.(money := s.money, unlockedModels := s.unlockedModels, placedCar := s.placedCar) == s)
      && (id in s.unlockedModels ==>
           && r.money == s.money && r.unlockedModels == s.unlockedModels
           && (s.placedCar.Some? ==> r.placedCar == Some(s.placedCar.value.(model := id)))
           && r.(placedCar := s.placedCar) == s)
      && (id !in s.unlockedModels && s.money < price ==> r == s)
  {
    if id !in s.unlockedModels && s.money >= price {
      assert multiset(s.unlockedModels)[id] == 0;
    }
  }

  // ---------------------------------------------------------------------------
  // Shop buttons against handlers

  /** An upgrade button is enabled exactly when clicking it changes the session. */
  lemma UpgradeButtonAgrees(s: Session, k: UpgradeKind)
    ensures !Tablet.UpgradeDisabled(s.upgrades.Level(k), s.money, Tablet.RowCost(s.upgrades, k))
      <==> HandleUpgrade(s, k) != s
  {
    UpgradeEffect(s, k);
  }

  /** An enabled repair button always repairs, and is charged at its shown price. */
  lemma RepairButtonAgrees(s: Session)
    requires s.placedCar.Some?
    ensures !Tablet.RepairDisabled(s.placedCar.value.health, s.money) ==>
      && HandleRepairCar(s).money == s.money - Tablet.RepairCost
      && HandleRepairCar(s).placedCar.value.health == MaxHealth
    ensures Tablet.RepairDisabled(s.placedCar.value.health, s.money) && s.placedCar.value.health < MaxHealth ==>
      HandleRepairCar(s) == s
  {
  }

  /**
   * A vehicle button the catalogue shows, while enabled, charges exactly the
   * price its caption shows (nothing for SELECIONAR) and puts the car on that
   * model; the ATIVO button would change nothing.
   */
  lemma VehicleButtonAgrees(s: Session, id: CarModelId)
    requires s.placedCar.Some?
    ensures var model := Tablet.Catalogue(id);
      var current := s.placedCar.value.model;
      var r := HandleBuyInterceptor(s, model.id, model.price);
      var caption := Tablet.VehicleCaption(model, current, s.unlockedModels);
      && (!Tablet.VehicleDisabled(model, s.money, current, s.unlockedModels) ==>
           && r.placedCar.Some? && r.placedCar.value.model == id
           && (caption == Tablet.Select ==> r.money == s.money)
           && (caption == Tablet.Price(model.price) ==> r.money == s.money - model.price >= 0))
      && (caption == Tablet.Active && current in s.unlockedModels ==> r == s)
  {
  }

  // ---------------------------------------------------------------------------
  // Trees

  /** The first registry entry with id `id`, as `Array.prototype.find` returns it. */
  function FindTree(trees: seq<TreeData>, id: int): (r: Option<nat>)
    ensures r.Some? ==> r.value < |trees| && trees[r.value].id == id
    ensures r.Some? ==> forall j :: 0 <= j < r.value ==> trees[j].id != id
    ensures r.None? ==> forall j :: 0 <= j < |trees| ==> trees[j].id != id
  {
    if trees == [] then None
    else if trees[0].id == id then Some(0)
    else match FindTree(trees[1..], id)
      case None => None
      case Some(j) => Some(j + 1)
  }

  /** In a registry indexed by id, `find` lands on the index. */
  lemma FindByIndex(trees: seq<TreeData>, id: int)
    requires IdsAreIndices(trees)
    ensures FindTree(trees, id) == if 0 <= id < |trees| then Some(id) else None
  {
    var r := FindTree(trees, id);
    if r.Some? {
      assert trees[r.value].id == r.value;
    }
    if 0 <= id < |trees| {
      assert trees[id].id == id;
    }
  }

  /** Whether a call for `id` finds a standing tree (and so knocks it down). */
  predicate FellsTree(trees: seq<TreeData>, id: int) {
    var f := FindTree(trees, id);
    f.Some? && !trees[f.value].destroyed
  }

  /**
   * `onTreeDestroyed`: the first tree with that id falls and a tree event is
   * recorded at its position, unless it is missing or already down; the
   * reward of 25 is paid on every call regardless.
   */
  function OnTreeDestroyed(s: Session, id: int, stamp: real): Session {
    var f := FindTree(s.trees, id);
    if f.Some? && !s.trees[f.value].destroyed then
      var tree := s.trees[f.value];
      s.(trees := seq(|s.trees|, i requires 0 <= i < |s.trees| =>
                        if s.trees[i].id == id then s.trees[i].(destroyed := true) else s.trees[i]),
         events := s.events + [Event(stamp, tree.position, TreeFell)],
         money := s.money + TreeReward)
    else s.(money := s.money + TreeReward)
  }

  lemma TreeDestroyedEffect(s: Session, id: int, stamp: real)
    ensures var r := OnTreeDestroyed(s, id, stamp);
      && r.money == s.money + 25
      && |r.trees| == |s.trees|
      && (forall i :: 0 <= i < |s.trees| ==>
           && r.trees[i].(destroyed := s.trees[i].destroyed) == s.trees[i]
           && (r.trees[i].destroyed <==> s.trees[i].destroyed || (FellsTree(s.trees, id) && s.trees[i].id == id)))
      && (FellsTree(s.trees, id) ==>
           r.events == s.events + [Event(stamp, s.trees[FindTree(s.trees, id).value].position, TreeFell)])
      && (!FellsTree(s.trees, id) ==> r.trees == s.trees && r.events == s.events)
      && r.(money := s.money, trees := s.trees, events := s.events) == s
  {
  }

  /** A second call for the same tree pays again but fells nothing and records nothing. */
  lemma TreeRewardRepeats(s: Session, id: int, stamp1: real, stamp2: real)
    ensures var r1 := OnTreeDestroyed(s, id, stamp1);
      var r2 := OnTreeDestroyed(r1, id, stamp2);
      && r2.trees == r1.trees && r2.events == r1.events
      && r2.money == s.money + 50
  {
    var r1 := OnTreeDestroyed(s, id, stamp1);
    var f := FindTree(s.trees, id);
    if f.Some? && !s.trees[f.value].destroyed {
      var g := FindTree(r1.trees, id);
      assert r1.trees[f.value].id == id;
      assert g.Some? && g.value <= f.value;
      assert g.value == f.value;
    } else {
      assert r1.trees == s.trees;
    }
  }

  /** A call with an id no tree has still pays the reward. */
  lemma UnknownTreePays(s: Session, id: int, stamp: real)
    requires IdsAreIndices(s.trees) && !(0 <= id < |s.trees|)
    ensures OnTreeDestroyed(s, id, stamp) == s.(money := s.money + 25)
  {
    FindByIndex(s.trees, id);
  }

  /** The callbacks of one frame, applied in the order the scan made them. */
  function ApplyTreeCalls(s: Session, ids: seq<int>, stamp: real): Session {
    if ids == [] then s
    else OnTreeDestroyed(ApplyTreeCalls(s, ids[..|ids| - 1], stamp), ids[|ids| - 1], stamp)
  }

  /**
   * Calls for distinct standing trees of an id-indexed registry fell exactly
   * those trees, record one event each and pay 25 each.
   */
  lemma {:induction false} ApplyDistinct(s: Session, ids: seq<int>, stamp: real)
    requires IdsAreIndices(s.trees)
    requires forall k :: 0 <= k < |ids| ==> 0 <= ids[k] < |s.trees| && !s.trees[ids[k]].destroyed
    requires forall k, l :: 0 <= k < l < |ids| ==> ids[k] < ids[l]
    ensures var r := ApplyTreeCalls(s, ids, stamp);
      && |r.trees| == |s.trees|
      && (forall i :: 0 <= i < |s.trees| ==>
           r.trees[i] == if i in ids then s.trees[i].(destroyed := true) else s.trees[i])
      && r.money == s.money + 25 * |ids|
      && CountKind(r.events, TreeFell) == CountKind(s.events, TreeFell) + |ids|
      && CountKind(r.events, HouseFell) == CountKind(s.events, HouseFell)
      && DestroyedCount(r.trees) == DestroyedCount(s.trees) + |ids|
      && r.(money := s.money, trees := s.trees, events := s.events) == s
  {
    if ids != [] {
      var n := |ids| - 1;
      var prefix := ids[..n];
      ApplyDistinct(s, prefix, stamp);
      var p := ApplyTreeCalls(s, prefix, stamp);
      var id := ids[n];
      assert id !in prefix;
      assert p.trees[id] == s.trees[id];
      assert IdsAreIndices(p.trees);
      TreeCallForm(p, id, stamp);
      var r := OnTreeDestroyed(p, id, stamp);
      DestroyedCountMark(p.trees, id);
      CountAppend(p.events, Event(stamp, p.trees[id].position, TreeFell), TreeFell);
      CountAppend(p.events, Event(stamp, p.trees[id].position, TreeFell), HouseFell);
      forall i | 0 <= i < |s.trees|
        ensures r.trees[i] == if i in ids then s.trees[i].(destroyed := true) else s.trees[i]
      {
        assert i in ids <==> i in prefix || i == id;
      }
    }
  }

  /** In an id-indexed registry the scan reports ids equal to the indices it found. */
  lemma IdsAtIndices(trees: seq<TreeData>, f: seq<int>)
    requires IdsAreIndices(trees)
    requires forall k :: 0 <= k < |f| ==> 0 <= f[k] < |trees|
    ensures InstancedTrees.IdsAt(trees, f) == f
  {
    var ids := InstancedTrees.IdsAt(trees, f);
    forall k | 0 <= k < |f|
      ensures ids[k] == f[k]
    {
      assert trees[f[k]].id == f[k];
    }
  }

  /** A registry with no standing tree in the kill zone gives the scan nothing to report. */
  lemma NothingToReport(trees: seq<TreeData>, tornado: Vec3)
    requires forall i :: 0 <= i < |trees| ==> !InstancedTrees.Fires(trees[i], tornado)
    ensures InstancedTrees.Firing(trees, tornado) == []
  {
    InstancedTrees.FiringExact(trees, tornado);
    var g := InstancedTrees.Firing(trees, tornado);
    if g != [] {
      assert false;
    }
  }

  /**
   * One frame of the tree scan followed by its callbacks: every standing tree
   * in the kill zone falls, nothing else changes, 25 is paid per call, and a
   * second scan at the same tornado position finds nothing more to report.
   */
  lemma ScanThenCallbacks(s: Session, tornado: Vec3, stamp: real)
    requires Inv(s)
    ensures var f := InstancedTrees.Firing(s.trees, tornado);
      var calls := InstancedTrees.IdsAt(s.trees, f);
      var r := ApplyTreeCalls(s, calls, stamp);
      && calls == f
      && r.money == s.money + 25 * |calls|
      && |r.trees| == |s.trees|
      && (forall i :: 0 <= i < |s.trees| ==>
           r.trees[i].destroyed == (s.trees[i].destroyed || InstancedTrees.InKillZone(s.trees[i], tornado)))
      && InstancedTrees.Firing(r.trees, tornado) == []
      && Inv(r)
  {
    var f := InstancedTrees.Firing(s.trees, tornado);
    InstancedTrees.FiringExact(s.trees, tornado);
    IdsAtIndices(s.trees, f);
    ApplyDistinct(s, f, stamp);
    var r := ApplyTreeCalls(s, f, stamp);
    forall i | 0 <= i < |s.trees|
      ensures r.trees[i].destroyed == (s.trees[i].destroyed || InstancedTrees.InKillZone(s.trees[i], tornado))
      ensures !InstancedTrees.Fires(r.trees[i], tornado)
    {
      if i in f {
        assert InstancedTrees.Fires(s.trees[i], tornado);
      } else {
        assert !InstancedTrees.Fires(s.trees[i], tornado);
      }
    }
    NothingToReport(r.trees, tornado);
    assert IdsAreIndices(r.trees) by {
      forall i | 0 <= i < |r.trees|
        ensures r.trees[i].id == i
      {
        assert s.trees[i].id == i;
      }
    }
  }

  /** The registry a new game starts with: one tree per triple of random draws. */
  datatype TreeDraw = TreeDraw(rx: real, rz: real, rs: real)

  predicate DrawsInRange(draws: seq<TreeDraw>) {
    forall i :: 0 <= i < |draws| ==>
      && 0.0 <= draws[i].rx < 1.0
      && 0.0 <= draws[i].rz < 1.0
      && 0.0 <= draws[i].rs < 1.0
  }

  /** One tree: placed uniformly in the central 1400 x 1400 square, set on the ground, scaled 3 to 10. */
  function TreeFromDraw(m: MathLib, i: int, d: TreeDraw): TreeData {
    var x := (d.rx - 0.5) * TreeSpread;
    var z := (d.rz - 0.5) * TreeSpread;
    TreeData(i, Vec3(x, Terrain.Height(m, x, z, Terrain.GroundSize), z), 3.0 + d.rs * 7.0, false)
  }

  /** The tree-generation effect, with the `Math.random` draws passed in. */
  function GenerateTrees(m: MathLib, draws: seq<TreeDraw>): (trees: seq<TreeData>)
    ensures |trees| == |draws|
    ensures IdsAreIndices(trees)
  {
    seq(|draws|, i requires 0 <= i < |draws| => TreeFromDraw(m, i, draws[i]))
  }

  /**
   * Generated trees stand on the terrain inside the wall-free area, are all
   * standing, and are between 3 and 10 units tall.
   */
  lemma GeneratedTrees(m: MathLib, draws: seq<TreeDraw>)
    requires Lawful(m) && DrawsInRange(draws)
    ensures var trees := GenerateTrees(m, draws);
      && DestroyedCount(trees) == 0
      && forall i :: 0 <= i < |trees| ==>
        && !trees[i].destroyed
        && -700.0 <= trees[i].position.x < 700.0
        && -700.0 <= trees[i].position.z < 700.0
        && trees[i].position.y == Terrain.Height(m, trees[i].position.x, trees[i].position.z, Terrain.GroundSize)
        && -8.0 <= trees[i].position.y <= 8.0
        && 3.0 <= trees[i].scale < 10.0
  {
    var trees := GenerateTrees(m, draws);
    AllStandingCount(trees);
    forall i | 0 <= i < |trees|
      ensures -8.0 <= trees[i].position.y <= 8.0
      ensures 3.0 <= trees[i].scale < 10.0
    {
      TreeShape(m, i, draws[i]);
    }
  }

  /** One generated tree stands on flat ground and is 3 to 10 units tall. */
  lemma TreeShape(m: MathLib, i: int, d: TreeDraw)
    requires Lawful(m) && 0.0 <= d.rx < 1.0 && 0.0 <= d.rz < 1.0 && 0.0 <= d.rs < 1.0
    ensures var t := TreeFromDraw(m, i, d);
      && -8.0 <= t.position.y <= 8.0
      && 3.0 <= t.scale < 10.0
  {
    var x := (d.rx - 0.5) * TreeSpread;
    var z := (d.rz - 0.5) * TreeSpread;
    assert Terrain.EdgeDist(x, z) <= Terrain.WallStart(Terrain.GroundSize);
    Terrain.HeightBounds(m, x, z, Terrain.GroundSize);
    MulNonNeg(d.rs, 7.0);
    ScaleBelow(7.0, d.rs);
  }

  lemma {:induction false} AllStandingCount(trees: seq<TreeData>)
    requires forall i :: 0 <= i < |trees| ==> !trees[i].destroyed
    ensures DestroyedCount(trees) == 0
  {
    if trees != [] {
      AllStandingCount(trees[..|trees| - 1]);
    }
  }

  /** The session once the mount effect has filled the registry. */
  function NewGame(m: MathLib, draws: seq<TreeDraw>): (s: Session)
    requires |draws| == TreeCount
    ensures |s.trees| == TreeCount
  {
    InitialSession().(trees := GenerateTrees(m, draws))
  }

  // ---------------------------------------------------------------------------
  // Clock and tornado

  /** The clock interval's updater: `(t + 0.03) % 24` with JavaScript's remainder. */
  function NextTime(t: real): real {
    JsRem(t + ClockStep, DayLength)
  }

  /** The clock advances by 0.03 and wraps from 24 back to 0. */
  lemma ClockWraps(t: real)
    requires 0.0 <= t < DayLength
    ensures 0.0 <= NextTime(t) < DayLength
    ensures t + 0.03 < 24.0 ==> NextTime(t) == t + 0.03
    ensures t + 0.03 >= 24.0 ==> NextTime(t) == t + 0.03 - 24.0
  {
    if t + 0.03 < 24.0 {
      JsRemSmall(t + ClockStep, DayLength);
    } else {
      JsRemWrap(t + ClockStep, DayLength);
    }
  }

  /** The clock runs only during play with the tablet closed. */
  function ClockTick(s: Session): (r: Session)
    ensures r.(timeOfDay := s.timeOfDay) == s
    ensures s.phase != Playing || s.showTablet ==> r == s
  {
    if s.phase == Playing && !s.showTablet then s.(timeOfDay := NextTime(s.timeOfDay)) else s
  }

  /** The pursuit step: 5.5 units towards the player, then back onto the ground. */
  function TornadoStep(m: MathLib, prev: Vec3, player: Vec3): Vec3 {
    var dir := Normalize(m, player.Sub(prev));
    var moved := prev.Add(dir.Scale(TornadoStride));
    moved.(y := Terrain.Height(m, moved.x, moved.z, Terrain.GroundSize))
  }

  /** After each step the tornado sits on the ground, which is never below -8. */
  lemma TornadoGrounded(m: MathLib, prev: Vec3, player: Vec3)
    requires Lawful(m)
    ensures var r := TornadoStep(m, prev, player);
      r.y == Terrain.Height(m, r.x, r.z, Terrain.GroundSize) && r.y >= -8.0
  {
    var r := TornadoStep(m, prev, player);
    Terrain.HeightBounds(m, r.x, r.z, Terrain.GroundSize);
  }

  /** Whether the tornado, at its position before this tick's step, wrecks the house. */
  predicate HouseHit(m: MathLib, s: Session) {
    !s.isHouseDestroyed && Dist(m, s.tornadoPos, HousePos) < HouseRadius
  }

  /**
   * The tornado interval: only during play, at night, with the tablet closed.
   * It steps the tornado, and if the house is standing and within 45 of where
   * the tornado was before the step, pays 1000 and records the house event.
   */
  function TornadoTick(m: MathLib, s: Session, player: Vec3, stamp: real): Session {
    if s.phase == Playing && IsNight(s.timeOfDay) && !s.showTablet then
      var hit := HouseHit(m, s);
      s.(tornadoPos := TornadoStep(m, s.tornadoPos, player),
         isHouseDestroyed := s.isHouseDestroyed || hit,
         money := if hit then s.money + HouseReward else s.money,
         events := if hit then s.events + [Event(stamp, HousePos, HouseFell)] else s.events)
    else s
  }

  lemma TornadoTickEffect(m: MathLib, s: Session, player: Vec3, stamp: real)
    requires Lawful(m)
    ensures var r := TornadoTick(m, s, player, stamp);
      var active := s.phase == Playing && IsNight(s.timeOfDay) && !s.showTablet;
      var hit := active && !s.isHouseDestroyed && s.tornadoPos.LengthSq() < 45.0 * 45.0;
      && (!active ==> r == s)
      && (active ==> r.tornadoPos == TornadoStep(m, s.tornadoPos, player))
      && (hit ==> r.money == s.money + 1000 && r.isHouseDestroyed
                  && r.events == s.events + [Event(stamp, HousePos, HouseFell)])
      && (!hit ==> r.money == s.money && r.events == s.events && r.isHouseDestroyed == s.isHouseDestroyed)
      && r.(tornadoPos := s.tornadoPos, isHouseDestroyed := s.isHouseDestroyed, money := s.money, events := s.events) == s
  {
    DistBelow(m, s.tornadoPos, HousePos, HouseRadius);
    assert s.tornadoPos.Sub(HousePos) == s.tornadoPos;
  }

  lemma PlanarScale(v: Vec3, k: real)
    ensures Vec3(v.x * k, 0.0, v.z * k).PlanarSq() == k * k * v.PlanarSq()
  {
  }

  /**
   * Pursuit: after a step, the tornado's horizontal offset from the player is
   * the old offset scaled by `1 - 5.5 / d`, `d` the 3-D distance before it.
   */
  lemma TornadoPursuit(m: MathLib, prev: Vec3, player: Vec3)
    requires Lawful(m) && player.Sub(prev).LengthSq() > 0.0
    ensures var d := m.sqrt(player.Sub(prev).LengthSq());
      var k := 1.0 - TornadoStride / d;
      d > 0.0 && player.Sub(TornadoStep(m, prev, player)).PlanarSq() == k * k * player.Sub(prev).PlanarSq()
  {
    NormalizeNonZero(m, player.Sub(prev));
    PursuitByRoot(m, prev, player);
    StepPlanarOffset(m, prev, player);
  }

  /** The same, for any host whose `normalize` divides the offset by a positive length `d`. */
  lemma PursuitByRoot(m: MathLib, prev: Vec3, player: Vec3)
    requires var v := player.Sub(prev);
      m.sqrt(v.LengthSq()) > 0.0 && Normalize(m, v) == v.Scale(1.0 / m.sqrt(v.LengthSq()))
    ensures var d := m.sqrt(player.Sub(prev).LengthSq());
      var k := 1.0 - TornadoStride / d;
      player.Sub(prev.Add(Normalize(m, player.Sub(prev)).Scale(TornadoStride))).PlanarSq() == k * k * player.Sub(prev).PlanarSq()
  {
    var v := player.Sub(prev);
    ScaledOffset(prev, player, Normalize(m, v), m.sqrt(v.LengthSq()));
  }

  /** The step moves the tornado `5.5` along the normalised offset in the ground plane; its height does not count. */
  lemma StepPlanarOffset(m: MathLib, prev: Vec3, player: Vec3)
    ensures player.Sub(TornadoStep(m, prev, player)).PlanarSq()
         == player.Sub(prev.Add(Normalize(m, player.Sub(prev)).Scale(TornadoStride))).PlanarSq()
  {
  }

  /** Moving `5.5 / d` of the way along the offset scales its horizontal part by `1 - 5.5 / d`. */
  lemma ScaledOffset(prev: Vec3, player: Vec3, dir: Vec3, d: real)
    requires d > 0.0 && dir == player.Sub(prev).Scale(1.0 / d)
    ensures var k := 1.0 - TornadoStride / d;
      player.Sub(prev.Add(dir.Scale(TornadoStride))).PlanarSq() == k * k * player.Sub(prev).PlanarSq()
  {
    var v := player.Sub(prev);
    var k := 1.0 - TornadoStride / d;
    OffsetAfterStep(player.x, prev.x, d);
    OffsetAfterStep(player.z, prev.z, d);
    PlanarScale(v, k);
  }

  /** One coordinate of the pursuit step. */
  lemma OffsetAfterStep(p: real, q: real, d: real)
    requires d > 0.0
    ensures p - (q + ((p - q) * (1.0 / d)) * TornadoStride) == (p - q) * (1.0 - TornadoStride / d)
  {
    var inv := 1.0 / d;
    assert TornadoStride / d == TornadoStride * inv;
    assert ((p - q) * inv) * TornadoStride == (p - q) * (TornadoStride * inv);
  }

  /** While farther than 2.75 away, each step brings the tornado horizontally closer to the player. */
  lemma TornadoCloses(m: MathLib, prev: Vec3, player: Vec3)
    requires Lawful(m) && player.Sub(prev).LengthSq() > 2.75 * 2.75 && player.Sub(prev).PlanarSq() > 0.0
    ensures player.Sub(TornadoStep(m, prev, player)).PlanarSq() < player.Sub(prev).PlanarSq()
  {
    var v := player.Sub(prev);
    TornadoPursuit(m, prev, player);
    var d := m.sqrt(v.LengthSq());
    NormalizeNonZero(m, v);
    RootAbove(d, v.LengthSq());
    ShrinkFactor(d, v.PlanarSq());
  }

  /** A positive root of something above 2.75 squared is above 2.75. */
  lemma RootAbove(d: real, a: real)
    requires d > 0.0 && d * d == a && a > 2.75 * 2.75
    ensures d > 2.75
  {
    if d <= 2.75 {
      MulMonotone(d, 2.75, d);
      MulMonotone(d, 2.75, 2.75);
    }
  }

  /** Scaling by `1 - 5.5 / d` with `d > 2.75` shrinks a positive square. */
  lemma ShrinkFactor(d: real, p: real)
    requires d > 2.75 && p > 0.0
    ensures var k := 1.0 - TornadoStride / d; k * k * p < p
  {
    var k := 1.0 - TornadoStride / d;
    var q := TornadoStride / d;
    assert q * d == TornadoStride;
    if q >= 2.0 {
      MulMonotone(2.0, q, d);
    }
    assert 0.0 < q < 2.0;
    var a := Abs(k);
    assert a * a == k * k;
    SquareMonotone(a, 1.0);
    var c := 1.0 - k * k;
    MulPos(c, p);
    assert k * k * p == p - c * p;
  }

  // ---------------------------------------------------------------------------
  // The session as a sequence of events

  /** What can happen to a session. */
  datatype Action =
    | Damage(amount: real)
    | RepairCar
    | Upgrade(kind: UpgradeKind)
    | BuyInterceptor(id: CarModelId, price: int)
    | TreeDestroyed(treeId: int, stamp: real)
    | TornadoInterval(player: Vec3, stamp: real)
    | ClockInterval
    | ToggleDriving(camera: Vec3)
    | DriveFrame(keys: Player.Keys, delta: real)

  /** The damage the frame loop deals is never negative. */
  predicate WellFormed(a: Action) {
    a.Damage? ==> a.amount >= 0.0
  }

  /** Key F: enter or leave the car when within 15 units of it, unless the tablet is open. */
  function ToggleDrivingAt(m: MathLib, s: Session, camera: Vec3): Session {
    if !s.showTablet && s.placedCar.Some? && Dist(m, camera, s.placedCar.value.position) < 15.0 then
      s.(placedCar := Some(s.placedCar.value.(isDriving := !s.placedCar.value.isDriving)))
    else s
  }

  /**
   * Key F as written cannot take a driver out of the car: while driving, the
   * camera sits at the chase position, `√449 ≈ 21.2` from the car, so the
   * 15-unit test always fails.
   */
  lemma CannotLeaveCar(m: MathLib, s: Session)
    requires Lawful(m) && s.placedCar.Some? && s.placedCar.value.isDriving
    ensures ToggleDrivingAt(m, s, Player.ChaseCamera(m, s.placedCar.value)) == s
  {
    Player.ChaseCameraFar(m, s.placedCar.value);
  }

  /**
   * Key F as evidently intended: the driver can always get out, and getting in
   * still needs the player within 15 units of the car.
   */
  function EnterOrLeaveCar(m: MathLib, s: Session, camera: Vec3): Session {
    if !s.showTablet && s.placedCar.Some?
       && (s.placedCar.value.isDriving || Dist(m, camera, s.placedCar.value.position) < 15.0)
    then
      s.(placedCar := Some(s.placedCar.value.(isDriving := !s.placedCar.value.isDriving)))
    else s
  }

  /** With the intended toggle, a press while driving always leaves the car, wherever the camera is. */
  lemma LeaveAlways(m: MathLib, s: Session, camera: Vec3)
    requires !s.showTablet && s.placedCar.Some? && s.placedCar.value.isDriving
    ensures EnterOrLeaveCar(m, s, camera) == s.(placedCar := Some(s.placedCar.value.(isDriving := false)))
  {
  }

  /**
   * A driver who got in can get out again: in particular from the chase camera,
   * where the toggle as written does nothing.
   */
  lemma LeaveFromChaseCamera(m: MathLib, s: Session)
    requires Lawful(m) && !s.showTablet && s.placedCar.Some? && s.placedCar.value.isDriving
    ensures var cam := Player.ChaseCamera(m, s.placedCar.value);
      && ToggleDrivingAt(m, s, cam) == s
      && EnterOrLeaveCar(m, s, cam).placedCar == Some(s.placedCar.value.(isDriving := false))
  {
    CannotLeaveCar(m, s);
  }

  /** Getting in is unchanged: for a parked car the intended toggle is the toggle as written. */
  lemma EnterAsWritten(m: MathLib, s: Session, camera: Vec3)
    requires s.placedCar.None? || !s.placedCar.value.isDriving
    ensures EnterOrLeaveCar(m, s, camera) == ToggleDrivingAt(m, s, camera)
  {
  }

  /** Getting in and then pressing F again, from anywhere, restores the session. */
  lemma EnterThenLeave(m: MathLib, s: Session, enterAt: Vec3, leaveAt: Vec3)
    requires s.placedCar.Some? && !s.placedCar.value.isDriving
    requires EnterOrLeaveCar(m, s, enterAt) != s
    ensures EnterOrLeaveCar(m, s, enterAt).placedCar.value.isDriving
    ensures EnterOrLeaveCar(m, EnterOrLeaveCar(m, s, enterAt), leaveAt) == s
  {
  }

  /** The controller drives the session's car in place, with the current engine level. */
  function DriveCar(m: MathLib, s: Session, keys: Player.Keys, delta: real): Session {
    if s.placedCar.Some? && s.placedCar.value.isDriving then
      s.(placedCar := Some(Player.DriveStep(m, s.placedCar.value, s.upgrades.engine, keys, delta)))
    else s
  }

  /** Whatever the frame loop reports as damage is a well-formed damage action. */
  lemma FrameDamageWellFormed(tornadoActive: bool, dist: real, delta: real)
    requires delta >= 0.0
    ensures var d := Player.DamageCall(tornadoActive, dist, delta);
      d.Some? ==> WellFormed(Damage(d.value)) && d.value >= 0.0
  {
    Player.DamageBands(tornadoActive, dist, delta);
  }

  lemma ToggleTwice(m: MathLib, s: Session, camera: Vec3)
    ensures ToggleDrivingAt(m, ToggleDrivingAt(m, s, camera), camera) == s
    ensures s.placedCar.Some? && ToggleDrivingAt(m, s, camera) != s ==>
      ToggleDrivingAt(m, s, camera).placedCar.value.isDriving != s.placedCar.value.isDriving
  {
  }

  function Apply(m: MathLib, s: Session, a: Action): Session {
    match a
    case Damage(amount) => HandleDamage(s, amount)
    case RepairCar => HandleRepairCar(s)
    case Upgrade(k) => HandleUpgrade(s, k)
    case BuyInterceptor(id, price) => HandleBuyInterceptor(s, id, price)
    case TreeDestroyed(id, stamp) => OnTreeDestroyed(s, id, stamp)
    case TornadoInterval(player, stamp) => TornadoTick(m, s, player, stamp)
    case ClockInterval => ClockTick(s)
    case ToggleDriving(camera) => EnterOrLeaveCar(m, s, camera)
    case DriveFrame(keys, delta) => DriveCar(m, s, keys, delta)
  }

  function Run(m: MathLib, s: Session, actions: seq<Action>): Session {
    if actions == [] then s
    else Apply(m, Run(m, s, actions[..|actions| - 1]), actions[|actions| - 1])
  }

  lemma NewGameInv(m: MathLib, draws: seq<TreeDraw>)
    requires Lawful(m) && |draws| == TreeCount && DrawsInRange(draws)
    ensures Inv(NewGame(m, draws))
  {
    GeneratedTrees(m, draws);
  }

  /** Every handler keeps the session invariant. */
  lemma ApplyInv(m: MathLib, s: Session, a: Action)
    requires Inv(s) && WellFormed(a)
    ensures Inv(Apply(m, s, a))
  {
    match a
    case Damage(amount) => DamageInv(s, amount);
    case RepairCar => RepairInv(s);
    case Upgrade(k) => UpgradeInv(s, k);
    case BuyInterceptor(id, price) => BuyInv(s, id, price);
    case TreeDestroyed(id, stamp) => TreeDestroyedInv(s, id, stamp);
    case TornadoInterval(player, stamp) => TornadoInv(m, s, player, stamp);
    case ClockInterval => ClockInv(s);
    case ToggleDriving(camera) => ToggleInv(m, s, camera);
    case DriveFrame(keys, delta) => DriveInv(m, s, keys, delta);
  }

  lemma DamageInv(s: Session, amount: real)
    requires Inv(s) && amount >= 0.0
    ensures Inv(HandleDamage(s, amount))
  {
    DamageEffect(s, amount);
  }

  lemma RepairInv(s: Session)
    requires Inv(s)
    ensures Inv(HandleRepairCar(s))
  {
  }

  lemma UpgradeInv(s: Session, k: UpgradeKind)
    requires Inv(s)
    ensures Inv(HandleUpgrade(s, k))
  {
    UpgradeEffect(s, k);
  }

  /** Buying appends a model that was not yet unlocked, so no model is ever listed twice. */
  lemma BuyInv(s: Session, id: CarModelId, price: int)
    requires Inv(s)
    ensures Inv(HandleBuyInterceptor(s, id, price))
  {
    var r := HandleBuyInterceptor(s, id, price);
    if s.money >= price && id !in s.unlockedModels {
      assert r.unlockedModels == s.unlockedModels + [id];
      assert forall i :: 0 <= i < |s.unlockedModels| ==> r.unlockedModels[i] == s.unlockedModels[i];
    }
  }

  /** A felled tree adds exactly one tree event, and a repeated call adds none. */
  lemma TreeDestroyedInv(s: Session, id: int, stamp: real)
    requires Inv(s)
    ensures Inv(OnTreeDestroyed(s, id, stamp))
  {
    TreeCallForm(s, id, stamp);
    var r := OnTreeDestroyed(s, id, stamp);
    if 0 <= id < |s.trees| && !s.trees[id].destroyed {
      var t := s.trees[id := s.trees[id].(destroyed := true)];
      var e := Event(stamp, s.trees[id].position, TreeFell);
      DestroyedCountMark(s.trees, id);
      CountAppend(s.events, e, TreeFell);
      CountAppend(s.events, e, HouseFell);
      assert IdsAreIndices(t);
      assert r == s.(trees := t, events := s.events + [e], money := s.money + TreeReward);
    } else {
      assert r == s.(money := s.money + TreeReward);
    }
  }

  /** In an id-indexed registry the callback fells the tree at index `id` if it stands, and pays 25 either way. */
  lemma TreeCallForm(s: Session, id: int, stamp: real)
    requires IdsAreIndices(s.trees)
    ensures 0 <= id < |s.trees| && !s.trees[id].destroyed ==>
      OnTreeDestroyed(s, id, stamp) == s.(trees := s.trees[id := s.trees[id].(destroyed := true)],
                                          events := s.events + [Event(stamp, s.trees[id].position, TreeFell)],
                                          money := s.money + TreeReward)
    ensures !(0 <= id < |s.trees| && !s.trees[id].destroyed) ==>
      OnTreeDestroyed(s, id, stamp) == s.(money := s.money + TreeReward)
  {
    FindByIndex(s.trees, id);
    if 0 <= id < |s.trees| && !s.trees[id].destroyed {
      var r := OnTreeDestroyed(s, id, stamp);
      assert r.trees == s.trees[id := s.trees[id].(destroyed := true)];
    }
  }

  /** The house event is added only while the house is still standing, and marks it destroyed. */
  lemma TornadoInv(m: MathLib, s: Session, player: Vec3, stamp: real)
    requires Inv(s)
    ensures Inv(TornadoTick(m, s, player, stamp))
  {
    if s.phase == Playing && IsNight(s.timeOfDay) && !s.showTablet && HouseHit(m, s) {
      CountAppend(s.events, Event(stamp, HousePos, HouseFell), TreeFell);
      CountAppend(s.events, Event(stamp, HousePos, HouseFell), HouseFell);
    }
  }

  lemma ClockInv(s: Session)
    requires Inv(s)
    ensures Inv(ClockTick(s))
  {
    ClockWraps(s.timeOfDay);
  }

  lemma ToggleInv(m: MathLib, s: Session, camera: Vec3)
    requires Inv(s)
    ensures Inv(EnterOrLeaveCar(m, s, camera))
  {
  }

  lemma DriveInv(m: MathLib, s: Session, keys: Player.Keys, delta: real)
    requires Inv(s)
    ensures Inv(DriveCar(m, s, keys, delta))
  {
    if s.placedCar.Some? && s.placedCar.value.isDriving {
      Player.DriveTurnsAndGrounds(m, s.placedCar.value, s.upgrades.engine, keys, delta);
    }
  }

  lemma {:induction false} RunInv(m: MathLib, s: Session, actions: seq<Action>)
    requires Inv(s) && forall i :: 0 <= i < |actions| ==> WellFormed(actions[i])
    ensures Inv(Run(m, s, actions))
  {
    if actions != [] {
      RunInv(m, s, actions[..|actions| - 1]);
      ApplyInv(m, Run(m, s, actions[..|actions| - 1]), actions[|actions| - 1]);
    }
  }

  /** However the game goes, the house event is recorded at most once and the money never goes negative. */
  lemma HouseFallsOnce(m: MathLib, draws: seq<TreeDraw>, actions: seq<Action>)
    requires Lawful(m) && |draws| == TreeCount && DrawsInRange(draws)
    requires forall i :: 0 <= i < |actions| ==> WellFormed(actions[i])
    ensures var r := Run(m, NewGame(m, draws), actions);
      CountKind(r.events, HouseFell) <= 1 && r.money >= 0
  {
    NewGameInv(m, draws);
    RunInv(m, NewGame(m, draws), actions);
  }
}
