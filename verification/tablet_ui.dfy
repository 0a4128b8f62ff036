/**
 * The tablet's shop screens (components/TabletUI.tsx): the vehicle
 * catalogue, the upgrade cost shown on each row, and when each button is
 * enabled and what it reads. Display text (names, descriptions, styling) is
 * not modelled; a caption is one of the four kinds of label the buttons show.
 */
module Tablet {
  import opened Types

  /** One catalogue entry; money is counted in whole credits. */
  datatype CarModel = CarModel(id: CarModelId, price: int, baseSpeed: int, baseHealth: int)

  const VehicleModels: seq<CarModel> := [
    CarModel(Scout, 0, 15, 100),
    CarModel(Tracker, 1500, 22, 250),
    CarModel(Beast, 5000, 30, 600)
  ]

  const RepairCost: int := 250
  const UpgradeStep: int := 400
  const MaxLevel: int := 5

  /** A button label: "ATIVO", "SELECIONAR", "MAX", or a price such as "$1500". */
  datatype Caption = Active | Select | Max | Price(amount: int)

  /** The catalogue row of a model. */
  function Catalogue(id: CarModelId): (c: CarModel)
    ensures c in VehicleModels && c.id == id
  {
    match id
    case Scout => VehicleModels[0]
    case Tracker => VehicleModels[1]
    case Beast => VehicleModels[2]
  }

  /** Every model appears exactly once, and the dearer models are faster and tougher. */
  lemma CatalogueTable()
    ensures |VehicleModels| == 3
    ensures forall i, j :: 0 <= i < j < |VehicleModels| ==> VehicleModels[i].id != VehicleModels[j].id
    ensures forall i, j :: 0 <= i < j < |VehicleModels| ==>
      && VehicleModels[i].price < VehicleModels[j].price
      && VehicleModels[i].baseSpeed < VehicleModels[j].baseSpeed
      && VehicleModels[i].baseHealth < VehicleModels[j].baseHealth
    ensures Catalogue(Scout).price == 0 && Catalogue(Tracker).price == 1500 && Catalogue(Beast).price == 5000
  {
  }

  /** The price of the next level of an upgrade at `level`. */
  function UpgradeCost(level: int): (c: int)
    ensures level >= 0 ==> c >= UpgradeStep
  {
    (level + 1) * UpgradeStep
  }

  /** The cost an upgrade row shows for upgrade `k`. */
  function RowCost(u: Upgrades, k: UpgradeKind): (c: int)
    ensures c == UpgradeCost(u.Level(k))
  {
    match k
    case Engine => (u.engine + 1) * UpgradeStep
    case Chassis => (u.chassis + 1) * UpgradeStep
    case Radar => (u.radar + 1) * UpgradeStep
  }

  /** An upgrade row's button is greyed out at the top level or when the player cannot pay. */
  predicate UpgradeDisabled(level: int, money: int, cost: int) {
    level >= MaxLevel || money < cost
  }

  function UpgradeCaption(level: int, cost: int): (c: Caption)
    ensures c == Max <==> level >= MaxLevel
    ensures c != Max ==> c == Price(cost)
  {
    if level >= MaxLevel then Max else Price(cost)
  }

  /** The repair button is greyed out for an undamaged car or when the player cannot pay. */
  predicate RepairDisabled(carHealth: real, money: int) {
    carHealth >= 100.0 || money < RepairCost
  }

  /** A vehicle's button is greyed out for the current model, and for a locked model the player cannot pay for. */
  predicate VehicleDisabled(model: CarModel, money: int, current: CarModelId, unlocked: seq<CarModelId>) {
    current == model.id || (money < model.price && model.id !in unlocked)
  }

  function VehicleCaption(model: CarModel, current: CarModelId, unlocked: seq<CarModelId>): (c: Caption)
    ensures c == Active <==> current == model.id
    ensures c == Select <==> current != model.id && model.id in unlocked
    ensures c == Price(model.price) <==> current != model.id && model.id !in unlocked
  {
    if current == model.id then Active
    else if model.id in unlocked then Select
    else Price(model.price)
  }

  /** A button that reads MAX is always disabled; a price caption shows exactly what is charged. */
  lemma UpgradeRowConsistent(u: Upgrades, k: UpgradeKind, money: int)
    ensures UpgradeCaption(u.Level(k), RowCost(u, k)) == Max ==> UpgradeDisabled(u.Level(k), money, RowCost(u, k))
    ensures UpgradeCaption(u.Level(k), RowCost(u, k)) != Max ==>
      (UpgradeDisabled(u.Level(k), money, RowCost(u, k)) <==> money < (u.Level(k) + 1) * 400)
  {
  }
}
