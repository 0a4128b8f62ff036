/**
 * The player's per-frame controller (`PlayerController` in App.tsx):
 * driving the car, walking and jumping on foot, the "near the car" flag, the
 * space-bar jump and the tornado's damage bands.
 *
 * The controller keeps the camera position, the vertical speed of a jump and
 * whether a jump is under way between frames; these are the fields of a
 * class. The car record the source mutates in place is passed in and the
 * driven record handed back. The camera's orientation (a quaternion the
 * pointer-lock control owns) is a parameter `orient` that turns a local
 * walking direction into a world direction.
 */
module Player {
  import opened Numerics
  import opened Types
  import Terrain

  const JumpForce: real := 0.55
  const JumpGravity: real := 0.022
  const EyeHeight: real := 1.8
  const TurnSpeed: real := 1.8
  const NearCarRange: real := 15.0
  const WalkSpeed: real := 8.0
  const RunSpeed: real := 15.0
  const CloseRange: real := 50.0
  const FarRange: real := 100.0
  const CloseDamageRate: real := 450.0
  const FarDamageRate: real := 35.0

  /** Which movement keys are held. */
  datatype Keys = Keys(forward: bool, backward: bool, left: bool, right: bool, run: bool)

  /** `Number(b)`. */
  function Flag(b: bool): (r: real)
    ensures 0.0 <= r <= 1.0
  {
    if b then 1.0 else 0.0
  }

  // ---------------------------------------------------------------------------
  // Driving

  /** The driving base speed of each model (distinct from the speed the shop lists). */
  function BaseDriveSpeed(model: CarModelId): real {
    match model
    case Scout => 20.0
    case Tracker => 30.0
    case Beast => 40.0
  }

  /** Base speed plus 10 per engine level, scaled from 30% (wrecked) to 100% (full health). */
  function DriveSpeed(model: CarModelId, engine: int, health: real): real {
    (BaseDriveSpeed(model) + engine as real * 10.0) * (0.3 + 0.7 * (health / 100.0))
  }

  lemma DriveSpeedRange(model: CarModelId, engine: int, health: real)
    requires engine >= 0 && 0.0 <= health <= 100.0
    ensures var top := BaseDriveSpeed(model) + engine as real * 10.0;
      0.3 * top <= DriveSpeed(model, engine, health) <= top
    ensures health == 100.0 ==> DriveSpeed(model, engine, health) == BaseDriveSpeed(model) + engine as real * 10.0
  {
    var top := BaseDriveSpeed(model) + engine as real * 10.0;
    var f := 0.3 + 0.7 * (health / 100.0);
    assert 0.3 <= f <= 1.0;
    assert DriveSpeed(model, engine, health) == top * f;
    MulMonotone(0.3, f, top);
    MulMonotone(f, 1.0, top);
    assert f * top == top * f && 1.0 * top == top;
    assert 0.3 * top <= top * f;
    assert top * f <= top;
  }

  /** Healthier cars, better engines and dearer models are never slower. */
  lemma DriveSpeedMonotone(model: CarModelId, e1: int, e2: int, h1: real, h2: real)
    requires 0 <= e1 <= e2 && 0.0 <= h1 <= h2
    ensures DriveSpeed(model, e1, h1) <= DriveSpeed(model, e2, h2)
    ensures BaseDriveSpeed(Scout) < BaseDriveSpeed(Tracker) < BaseDriveSpeed(Beast)
  {
    var t1 := BaseDriveSpeed(model) + e1 as real * 10.0;
    var t2 := BaseDriveSpeed(model) + e2 as real * 10.0;
    var f1 := 0.3 + 0.7 * (h1 / 100.0);
    var f2 := 0.3 + 0.7 * (h2 / 100.0);
    assert DriveSpeed(model, e1, h1) == t1 * f1;
    assert DriveSpeed(model, e2, h2) == t2 * f2;
    assert 0.0 <= t1 <= t2 && 0.0 <= f1 <= f2;
    MulMonotoneBoth(t1, t2, f1, f2);
  }

  /** The car's heading: (0, 0, 1) turned by `rotation` about the vertical axis. */
  function Heading(m: MathLib, rotation: real): Vec3 {
    Vec3(m.sin(rotation), 0.0, m.cos(rotation))
  }

  /** Net forward key: forward counts 1, reverse counts half speed backwards. */
  function Throttle(keys: Keys): real {
    Flag(keys.forward) - 0.5 * Flag(keys.backward)
  }

  /** How far the keys move the car in one frame: the net throttle times speed times delta. */
  function Travel(keys: Keys, speed: real, delta: real): real {
    Throttle(keys) * speed * delta
  }

  /** One horizontal coordinate after the forward and the reverse key, `h` the heading's component. */
  function Advance(a: real, h: real, speed: real, delta: real, keys: Keys): real {
    var a1 := if keys.forward then a + h * speed * delta else a;
    if keys.backward then a1 - h * speed * 0.5 * delta else a1
  }

  /** The heading after the turn keys: left turns one way, right the other, both cancel. */
  function Turned(rotation: real, keys: Keys, delta: real): real {
    rotation + (if keys.left then TurnSpeed * delta else 0.0) - (if keys.right then TurnSpeed * delta else 0.0)
  }

  /** The car after one frame of driving. */
  function DriveStep(m: MathLib, car: CarData, engine: int, keys: Keys, delta: real): CarData {
    var speed := DriveSpeed(car.model, engine, car.health);
    var rotation := Turned(car.rotation, keys, delta);
    var f := Heading(m, rotation);
    var x := Advance(car.position.x, f.x, speed, delta, keys);
    var z := Advance(car.position.z, f.z, speed, delta, keys);
    car.(rotation := rotation, position := Vec3(x, Terrain.Height(m, x, z, Terrain.GroundSize), z))
  }

  /** The keys move a coordinate by its heading component times the net throttle. */
  lemma AdvanceOffset(a: real, h: real, speed: real, delta: real, keys: Keys)
    ensures Advance(a, h, speed, delta, keys) - a == h * Travel(keys, speed, delta)
  {
    var u := speed * delta;
    assert h * speed * delta == h * u;
    assert h * speed * 0.5 * delta == 0.5 * (h * u);
    assert h * (Throttle(keys) * speed * delta) == h * (Throttle(keys) * u);
    assert h * (Throttle(keys) * u) == Flag(keys.forward) * (h * u) - 0.5 * Flag(keys.backward) * (h * u);
  }

  /** Where the camera sits while driving: 7 up and 20 behind the car. */
  function ChaseCamera(m: MathLib, car: CarData): Vec3 {
    car.position.Add(Vec3(0.0, 7.0, 0.0)).Sub(Heading(m, car.rotation).Scale(20.0))
  }

  /** The chase camera is always `√449 ≈ 21.2` from the car, outside the 15-unit reach of key F. */
  lemma ChaseCameraFar(m: MathLib, car: CarData)
    requires Lawful(m)
    ensures ChaseCamera(m, car).Sub(car.position).LengthSq() == 449.0
    ensures !(Dist(m, ChaseCamera(m, car), car.position) < NearCarRange)
  {
    var sn, cs := m.sin(car.rotation), m.cos(car.rotation);
    var d := ChaseCamera(m, car).Sub(car.position);
    assert d == Vec3(-20.0 * sn, 7.0, -20.0 * cs);
    assert (-20.0 * sn) * (-20.0 * sn) == 400.0 * (sn * sn);
    assert (-20.0 * cs) * (-20.0 * cs) == 400.0 * (cs * cs);
    assert sn * sn + cs * cs == 1.0;
    DistBelow(m, ChaseCamera(m, car), car.position, NearCarRange);
  }

  /**
   * One frame of driving moves the car horizontally by exactly
   * speed * delta times the net throttle, whichever way it faces.
   */
  lemma DriveDisplacement(m: MathLib, car: CarData, engine: int, keys: Keys, delta: real)
    requires Lawful(m)
    ensures var w := Travel(keys, DriveSpeed(car.model, engine, car.health), delta);
      DriveStep(m, car, engine, keys, delta).position.Sub(car.position).PlanarSq() == w * w
  {
    PythagoreanIdentity(m, Turned(car.rotation, keys, delta));
    OnUnitHeading(m, car, engine, keys, delta);
  }

  lemma PythagoreanIdentity(m: MathLib, a: real)
    requires Lawful(m)
    ensures m.sin(a) * m.sin(a) + m.cos(a) * m.cos(a) == 1.0
  {
  }

  /** The same, for any host whose sine and cosine of the new heading lie on the unit circle. */
  lemma OnUnitHeading(m: MathLib, car: CarData, engine: int, keys: Keys, delta: real)
    requires var a := Turned(car.rotation, keys, delta);
      m.sin(a) * m.sin(a) + m.cos(a) * m.cos(a) == 1.0
    ensures var w := Travel(keys, DriveSpeed(car.model, engine, car.health), delta);
      DriveStep(m, car, engine, keys, delta).position.Sub(car.position).PlanarSq() == w * w
  {
    var r := DriveStep(m, car, engine, keys, delta);
    var w := Travel(keys, DriveSpeed(car.model, engine, car.health), delta);
    DriveOffsets(m, car, engine, keys, delta);
    UnitCircle(m.sin(r.rotation), m.cos(r.rotation), w);
  }

  /**
   * The turn keys turn the car by 1.8 per second each way, the car ends on
   * the ground, and its model, health and driving flag are left alone.
   */
  lemma DriveTurnsAndGrounds(m: MathLib, car: CarData, engine: int, keys: Keys, delta: real)
    ensures var r := DriveStep(m, car, engine, keys, delta);
      && r.rotation == car.rotation + TurnSpeed * delta * (Flag(keys.left) - Flag(keys.right))
      && r.position.y == Terrain.Height(m, r.position.x, r.position.z, Terrain.GroundSize)
      && r.(rotation := car.rotation, position := car.position) == car
  {
  }

  /** The horizontal move is the heading scaled by throttle, speed and delta. */
  lemma DriveOffsets(m: MathLib, car: CarData, engine: int, keys: Keys, delta: real)
    ensures var r := DriveStep(m, car, engine, keys, delta);
      var w := Travel(keys, DriveSpeed(car.model, engine, car.health), delta);
      && r.position.Sub(car.position).PlanarSq()
         == (m.sin(r.rotation) * w) * (m.sin(r.rotation) * w) + (m.cos(r.rotation) * w) * (m.cos(r.rotation) * w)
  {
    var r := DriveStep(m, car, engine, keys, delta);
    var speed := DriveSpeed(car.model, engine, car.health);
    var sn, cs := m.sin(r.rotation), m.cos(r.rotation);
    AdvanceOffset(car.position.x, sn, speed, delta, keys);
    AdvanceOffset(car.position.z, cs, speed, delta, keys);
  }

  lemma UnitCircle(sn: real, cs: real, w: real)
    requires sn * sn + cs * cs == 1.0
    ensures (sn * w) * (sn * w) + (cs * w) * (cs * w) == w * w
  {
    assert (sn * w) * (sn * w) + (cs * w) * (cs * w) == (sn * sn + cs * cs) * (w * w);
  }

  // ---------------------------------------------------------------------------
  // Walking and jumping

  /** The vertical state of the player on foot. */
  datatype Body = Body(y: real, vy: real, jumping: bool)

  /**
   * One frame of vertical motion over ground at eye level `ground`: a jump
   * rises by the current speed and loses 0.022 of it, and ends on reaching
   * the ground; otherwise the player stands at eye level.
   */
  function JumpFrame(b: Body, ground: real): (r: Body)
    ensures r.y >= ground
    ensures !r.jumping ==> r.y == ground
    ensures !b.jumping ==> r == b.(y := ground)
  {
    if b.jumping then
      var y := b.y + b.vy;
      if y <= ground then Body(ground, 0.0, false) else Body(y, b.vy - JumpGravity, true)
    else b.(y := ground)
  }

  /** `n` frames of a jump taken at eye level over flat ground. */
  function Jump(n: nat, ground: real): Body {
    if n == 0 then Body(ground, JumpForce, true) else JumpFrame(Jump(n - 1, ground), ground)
  }

  /** Over flat ground a jump follows the parabola `0.011 k (51 - k)` for its first 50 frames. */
  lemma {:induction false} JumpArc(k: nat, ground: real)
    requires k <= 50
    ensures Jump(k, ground) == Body(ground + 0.011 * (k as real) * (51.0 - k as real), 0.55 - 0.022 * k as real, true)
  {
    if k > 0 {
      JumpArc(k - 1, ground);
      ArcStep((k - 1) as real, ground);
      assert k as real == (k - 1) as real + 1.0;
    }
  }

  /** One frame of the parabola: height and speed move on from frame `j` to frame `j + 1`, still above the ground. */
  lemma ArcStep(j: real, ground: real)
    requires 0.0 <= j < 50.0
    ensures var y := ground + 0.011 * j * (51.0 - j) + (0.55 - 0.022 * j);
      && y == ground + 0.011 * (j + 1.0) * (51.0 - (j + 1.0))
      && y > ground
      && 0.55 - 0.022 * j - JumpGravity == 0.55 - 0.022 * (j + 1.0)
  {
    var y := ground + 0.011 * j * (51.0 - j) + (0.55 - 0.022 * j);
    assert y == ground + 0.011 * (j + 1.0) * (50.0 - j);
    var a, b := j + 1.0, 50.0 - j;
    MulPos(a, b);
    var p := a * b;
    assert y - ground == 0.011 * p;
  }

  /** ... and lands on frame 51, back at eye level and at rest, and stays there. */
  lemma {:induction false} JumpLands(n: nat, ground: real)
    requires n >= 51
    ensures Jump(n, ground) == Body(ground, 0.0, false)
  {
    if n == 51 {
      JumpArc(50, ground);
    } else {
      JumpLands(n - 1, ground);
    }
  }

  /** The walking step before orientation: right/left and back/forward keys, normalised, times the speed. */
  function LocalStep(m: MathLib, keys: Keys, delta: real): Vec3 {
    var speed := (if keys.run then RunSpeed else WalkSpeed) * delta;
    Normalize(m, Vec3(Flag(keys.right) - Flag(keys.left), 0.0, Flag(keys.backward) - Flag(keys.forward))).Scale(speed)
  }

  /** A diagonal walk is no faster than a straight one: the local step is `speed * delta` long. */
  lemma LocalStepLength(m: MathLib, keys: Keys, delta: real)
    requires Lawful(m)
    requires keys.right != keys.left || keys.backward != keys.forward
    ensures var speed := (if keys.run then RunSpeed else WalkSpeed) * delta;
      LocalStep(m, keys, delta).LengthSq() == speed * speed
  {
    var v := Vec3(Flag(keys.right) - Flag(keys.left), 0.0, Flag(keys.backward) - Flag(keys.forward));
    var speed := (if keys.run then RunSpeed else WalkSpeed) * delta;
    assert v.LengthSq() > 0.0;
    UnitAfterNormalize(m, v);
    ScaleLengthSq(Normalize(m, v), speed);
  }

  /** A normalised non-zero vector has length 1. */
  lemma UnitAfterNormalize(m: MathLib, v: Vec3)
    requires Lawful(m) && v.LengthSq() > 0.0
    ensures Normalize(m, v).LengthSq() == 1.0
  {
    NormalizeNonZero(m, v);
    var len := m.sqrt(v.LengthSq());
    ScaleLengthSq(v, 1.0 / len);
    InverseSquare(len);
  }

  lemma InverseSquare(len: real)
    requires len > 0.0
    ensures (1.0 / len) * (1.0 / len) * (len * len) == 1.0
  {
    var i := 1.0 / len;
    assert i * len == 1.0;
    assert i * i * (len * len) == (i * len) * (i * len);
  }

  // ---------------------------------------------------------------------------
  // Damage

  /**
   * The damage the frame deals while the tornado is out: 450 per second
   * within 50, 35 per second within 100, none farther away or by day.
   */
  function DamageCall(tornadoActive: bool, dist: real, delta: real): Option<real> {
    if !tornadoActive then None
    else if dist < CloseRange then Some(delta * CloseDamageRate)
    else if dist < FarRange then Some(delta * FarDamageRate)
    else None
  }

  lemma DamageBands(tornadoActive: bool, dist: real, delta: real)
    requires delta >= 0.0
    ensures DamageCall(tornadoActive, dist, delta).Some? <==> tornadoActive && dist < 100.0
    ensures tornadoActive && dist < 50.0 ==> DamageCall(tornadoActive, dist, delta) == Some(450.0 * delta)
    ensures tornadoActive && 50.0 <= dist < 100.0 ==> DamageCall(tornadoActive, dist, delta) == Some(35.0 * delta)
    ensures DamageCall(tornadoActive, dist, delta).Some? ==> DamageCall(tornadoActive, dist, delta).value >= 0.0
  {
  }

  /** Closer is never gentler. */
  lemma DamageMonotone(d1: real, d2: real, delta: real)
    requires delta >= 0.0 && d1 <= d2 && DamageCall(true, d2, delta).Some?
    ensures DamageCall(true, d1, delta).Some?
    ensures DamageCall(true, d2, delta).value <= DamageCall(true, d1, delta).value
  {
    MulMonotone(35.0, 450.0, delta);
  }

  // ---------------------------------------------------------------------------
  // The controller

  class PlayerController {
    var camera: Vec3
    var velocityY: real
    var isJumping: bool
    var isNearCar: bool

    /** The vertical state the jump integration works on. */
    function Vertical(): Body
      reads this
    {
      Body(camera.y, velocityY, isJumping)
    }

    /** The camera starts at (0, 5, 0), on foot and at rest. */
    constructor()
      ensures camera == Vec3(0.0, 5.0, 0.0) && velocityY == 0.0 && !isJumping && !isNearCar
    {
      camera := Vec3(0.0, 5.0, 0.0);
      velocityY := 0.0;
      isJumping := false;
      isNearCar := false;
    }

    /** Space starts a jump, on foot, when not already jumping, with the tablet closed. */
    method PressSpace(paused: bool, car: Option<CarData>)
      modifies this
      ensures var allowed := !paused && !old(isJumping) && !(car.Some? && car.value.isDriving);
        && (allowed ==> velocityY == JumpForce && isJumping)
        && (!allowed ==> velocityY == old(velocityY) && isJumping == old(isJumping))
      ensures camera == old(camera) && isNearCar == old(isNearCar)
    {
      if !paused && !isJumping && !(car.Some? && car.value.isDriving) {
        velocityY := JumpForce;
        isJumping := true;
      }
    }

    /** The car prompt shows within 15 units of a parked car. */
    method UpdateNearCar(m: MathLib, car: CarData)
      modifies this
      ensures isNearCar == (Dist(m, old(camera), car.position) < NearCarRange && !car.isDriving)
      ensures camera == old(camera) && velocityY == old(velocityY) && isJumping == old(isJumping)
    {
      var near := Dist(m, camera, car.position) < NearCarRange && !car.isDriving;
      if near != isNearCar {
        isNearCar := near;
      }
    }

    /** A frame at the wheel: turn, move along the heading, settle on the ground, and follow with the camera. */
    method Drive(m: MathLib, car: CarData, engine: int, keys: Keys, delta: real) returns (driven: CarData)
      modifies this
      ensures driven == DriveStep(m, car, engine, keys, delta)
      ensures camera == ChaseCamera(m, driven)
      ensures velocityY == old(velocityY) && isJumping == old(isJumping) && isNearCar == old(isNearCar)
    {
      var speed := DriveSpeed(car.model, engine, car.health);
      var rotation := car.rotation;
      if keys.left {
        rotation := rotation + TurnSpeed * delta;
      }
      if keys.right {
        rotation := rotation - TurnSpeed * delta;
      }
      var forward := Heading(m, rotation);
      var x := MoveAxis(car.position.x, forward.x, speed, delta, keys);
      var z := MoveAxis(car.position.z, forward.z, speed, delta, keys);
      assert rotation == Turned(car.rotation, keys, delta);
      driven := car.(rotation := rotation, position := Vec3(x, Terrain.Height(m, x, z, Terrain.GroundSize), z));
      camera := driven.position.Add(Vec3(0.0, 7.0, 0.0)).Sub(forward.Scale(20.0));
    }

    /** One horizontal coordinate of the car under the forward and reverse keys. */
    static method MoveAxis(a: real, h: real, speed: real, delta: real, keys: Keys) returns (r: real)
      ensures r == Advance(a, h, speed, delta, keys)
    {
      r := a;
      if keys.forward {
        r := r + h * speed * delta;
      }
      if keys.backward {
        r := r - h * speed * 0.5 * delta;
      }
    }

    /** A frame on foot: step horizontally, then jump or stand at eye level over the new spot. */
    method Walk(m: MathLib, keys: Keys, orient: Vec3 -> Vec3, delta: real)
      modifies this
      ensures var step := orient(LocalStep(m, keys, delta));
        camera.x == old(camera.x) + step.x && camera.z == old(camera.z) + step.z
      ensures Vertical() == JumpFrame(old(Vertical()), Terrain.Height(m, camera.x, camera.z, Terrain.GroundSize) + EyeHeight)
      ensures isNearCar == old(isNearCar)
    {
      var direction := orient(LocalStep(m, keys, delta));
      camera := camera.(x := camera.x + direction.x);
      camera := camera.(z := camera.z + direction.z);
      var groundHeight := Terrain.Height(m, camera.x, camera.z, Terrain.GroundSize) + EyeHeight;
      if isJumping {
        camera := camera.(y := camera.y + velocityY);
        velocityY := velocityY - JumpGravity;
        if camera.y <= groundHeight {
          camera := camera.(y := groundHeight);
          isJumping := false;
          velocityY := 0.0;
        }
      } else {
        camera := camera.(y := groundHeight);
      }
    }

    /**
     * The whole frame: nothing while paused; otherwise the car prompt, then
     * driving or walking, then the damage call at the player's new position.
     */
    method Frame(m: MathLib, car: Option<CarData>, engine: int, keys: Keys, orient: Vec3 -> Vec3, delta: real,
                 tornadoActive: bool, tornadoPos: Vec3, paused: bool)
      returns (newCar: Option<CarData>, damage: Option<real>)
      modifies this
      ensures paused ==> newCar == car && damage == None && Vertical() == old(Vertical()) && camera == old(camera)
      ensures paused ==> isNearCar == old(isNearCar)
      ensures !paused && car.Some? ==>
        isNearCar == (Dist(m, old(camera), car.value.position) < NearCarRange && !car.value.isDriving)
      ensures !paused && car.None? ==> isNearCar == old(isNearCar)
      ensures !paused && car.Some? && car.value.isDriving ==>
        && newCar == Some(DriveStep(m, car.value, engine, keys, delta))
        && camera == ChaseCamera(m, newCar.value)
        && velocityY == old(velocityY) && isJumping == old(isJumping)
      ensures !paused && !(car.Some? && car.value.isDriving) ==>
        && newCar == car
        && camera.x == old(camera.x) + orient(LocalStep(m, keys, delta)).x
        && camera.z == old(camera.z) + orient(LocalStep(m, keys, delta)).z
        && Vertical() == JumpFrame(old(Vertical()), Terrain.Height(m, camera.x, camera.z, Terrain.GroundSize) + EyeHeight)
      ensures !paused ==> damage == DamageCall(tornadoActive, Dist(m, camera, tornadoPos), delta)
    {
      newCar := car;
      damage := None;
      if paused {
        return;
      }
      if car.Some? {
        UpdateNearCar(m, car.value);
      }
      if car.Some? && car.value.isDriving {
        var driven := Drive(m, car.value, engine, keys, delta);
        newCar := Some(driven);
      } else {
        Walk(m, keys, orient, delta);
      }
      damage := DamageCall(tornadoActive, Dist(m, camera, tornadoPos), delta);
    }
  }
}
