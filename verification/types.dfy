/**
 * The records the game's simulation works on: the vehicle catalogue keys,
 * the shop upgrades, the tree registry entries, the player's vehicle and the
 * destruction events.
 */
module Types {
  import opened Numerics

  datatype Option<T> = None | Some(value: T)

  datatype CarModelId = Scout | Tracker | Beast

  datatype UpgradeKind = Engine | Chassis | Radar

  /** Shop levels; the shop raises each one from 0 up to 5. */
  datatype Upgrades = Upgrades(engine: int, chassis: int, radar: int) {
    function Level(k: UpgradeKind): int {
      match k
      case Engine => engine
      case Chassis => chassis
      case Radar => radar
    }

    /** The same levels with the one for `k` replaced. */
    function WithLevel(k: UpgradeKind, v: int): (u: Upgrades)
      ensures u.Level(k) == v
      ensures forall j :: j != k ==> u.Level(j) == Level(j)
    {
      match k
      case Engine => this.(engine := v)
      case Chassis => this.(chassis := v)
      case Radar => this.(radar := v)
    }
  }

  /** One entry of the tree registry: `destroyed` is the only field that ever changes. */
  datatype TreeData = TreeData(id: int, position: Vec3, scale: real, destroyed: bool)

  /** The player's vehicle as the session stores it. */
  datatype CarData = CarData(model: CarModelId, position: Vec3, rotation: real, isDriving: bool, health: real)

  datatype EventKind = TreeFell | HouseFell

  /** A destruction event: its time stamp, where it happened and what fell. */
  datatype Event = Event(stamp: real, pos: Vec3, kind: EventKind)

  datatype GamePhase = Start | CutsceneLook | StoryIntro | Playing | GameOver
}
