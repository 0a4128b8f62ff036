/**
 * The parked or driven vehicle's per-frame flight model (components/Car.tsx).
 *
 * Inside the tornado's pull radius the car is flung away from the tornado and
 * starts flying; while flying it rises and falls ballistically and spins; it
 * lands, snapping back to the height it rests at, once it drops more than 0.5
 * below that height. A car that is not flying just shows where the session
 * says it is. The flight only moves what is drawn: the session's own record
 * of the car is an input here and is never written.
 */
module CarPhysics {
  import opened Numerics
  import opened Types

  /** `9.8 * 5`: the flight's gravity per second. */
  const Gravity: real := 49.0
  const LandingSlack: real := 0.5

  /** The `flyRef` record. */
  datatype Flight = Flight(velocityY: real, isFlying: bool, rotationX: real, rotationZ: real)

  /** The drawn group's position and Euler rotation. */
  datatype Pose = Pose(position: Vec3, rotationX: real, rotationY: real, rotationZ: real)

  datatype CarState = CarState(flight: Flight, pose: Pose)

  /** The component's inputs for one frame: the session's car record, the shop's chassis level and the tornado. */
  datatype CarProps = CarProps(model: CarModelId, chassis: int, position: Vec3, rotation: real, tornadoPos: Vec3)

  /** Heavier models resist the wind: the beast least affected, the scout most. */
  function WeightFactor(model: CarModelId): (w: real)
    ensures w > 0.0
    ensures model == Beast ==> w == 0.4
    ensures model == Tracker ==> w == 0.8
    ensures model == Scout ==> w == 1.2
  {
    if model == Beast then 0.4 else if model == Tracker then 0.8 else 1.2
  }

  /** The distance below which the tornado grabs the car. */
  function PullThreshold(model: CarModelId, chassis: int): real {
    (40.0 + chassis as real * 5.0) * WeightFactor(model)
  }

  /** How hard the tornado flings the car; armour reduces it, never below zero. */
  function PullStrength(model: CarModelId, chassis: int): (p: real)
    ensures p >= 0.0
    ensures chassis as real >= 100.0 / 15.0 ==> p == 0.0
  {
    var w := WeightFactor(model);
    var base := Max(0.0, 100.0 - chassis as real * 15.0);
    MulNonNeg(base, w);
    base * w
  }

  /** More chassis armour never lowers the pull radius and never strengthens the pull. */
  lemma ChassisHelps(model: CarModelId, c1: int, c2: int)
    requires c1 <= c2
    ensures PullThreshold(model, c1) <= PullThreshold(model, c2)
    ensures PullStrength(model, c2) <= PullStrength(model, c1)
  {
    var w := WeightFactor(model);
    MulMonotone(40.0 + c1 as real * 5.0, 40.0 + c2 as real * 5.0, w);
    MulMonotone(Max(0.0, 100.0 - c2 as real * 15.0), Max(0.0, 100.0 - c1 as real * 15.0), w);
  }

  /** Per model, at the levels the shop sells: the radius grows and the pull weakens with each level. */
  lemma PullTable(model: CarModelId, chassis: int)
    requires 0 <= chassis <= 5
    ensures PullThreshold(model, chassis) == (40.0 + 5.0 * chassis as real) * WeightFactor(model)
    ensures PullStrength(model, chassis) == (100.0 - 15.0 * chassis as real) * WeightFactor(model) > 0.0
  {
    MulPos(100.0 - 15.0 * chassis as real, WeightFactor(model));
  }

  predicate InPullRadius(m: MathLib, pose: Pose, props: CarProps) {
    Dist(m, pose.position, props.tornadoPos) < PullThreshold(props.model, props.chassis)
  }

  /** The grab: flying starts, the car gains lift and spin and is pushed straight away from the tornado. */
  function Pulled(m: MathLib, s: CarState, props: CarProps, delta: real): CarState {
    var strength := PullStrength(props.model, props.chassis);
    var f := s.flight;
    var away := Normalize(m, s.pose.position.Sub(props.tornadoPos));
    CarState(
      Flight(f.velocityY + delta * (strength / 2.0), true, f.rotationX + delta * 5.0, f.rotationZ + delta * 3.0),
      s.pose.(position := s.pose.position.Add(away.Scale(delta * strength))))
  }

  /** The flight integration and landing test, or, on the ground, the copy of the session's car record. */
  function Settle(s: CarState, props: CarProps, delta: real): CarState {
    var f, p := s.flight, s.pose;
    if f.isFlying then
      var y := p.position.y + f.velocityY * delta;
      if y < props.position.y - LandingSlack then
        CarState(f.(velocityY := 0.0, isFlying := false),
                 p.(position := p.position.(y := props.position.y), rotationX := 0.0, rotationZ := 0.0))
      else
        CarState(f.(velocityY := f.velocityY - Gravity * delta),
                 p.(position := p.position.(y := y), rotationX := f.rotationX, rotationZ := f.rotationZ))
    else
      CarState(f, p.(position := props.position, rotationY := props.rotation))
  }

  /** One frame. */
  function CarStep(m: MathLib, s: CarState, props: CarProps, delta: real): CarState {
    Settle(if InPullRadius(m, s.pose, props) then Pulled(m, s, props, delta) else s, props, delta)
  }

  /** `n` frames with the same inputs. */
  function Run(m: MathLib, s: CarState, props: CarProps, delta: real, n: nat): CarState
    decreases n
  {
    if n == 0 then s else Run(m, CarStep(m, s, props, delta), props, delta, n - 1)
  }

  /**
   * Being grabbed: the car flies, gains `delta * strength / 2` of upward speed,
   * spins on by `5 * delta` and `3 * delta`, and ends up exactly
   * `delta * strength` further from the tornado.
   */
  lemma PullPushesAway(m: MathLib, s: CarState, props: CarProps, delta: real)
    requires Lawful(m) && delta >= 0.0
    requires s.pose.position.Sub(props.tornadoPos).LengthSq() > 0.0
    ensures var r := Pulled(m, s, props, delta);
      && r.flight.isFlying
      && r.flight.velocityY == s.flight.velocityY + delta * PullStrength(props.model, props.chassis) / 2.0
      && r.flight.rotationX == s.flight.rotationX + delta * 5.0
      && r.flight.rotationZ == s.flight.rotationZ + delta * 3.0
      && Dist(m, r.pose.position, props.tornadoPos)
         == Dist(m, s.pose.position, props.tornadoPos) + delta * PullStrength(props.model, props.chassis)
  {
    var k := delta * PullStrength(props.model, props.chassis);
    MulNonNeg(delta, PullStrength(props.model, props.chassis));
    var p, t := s.pose.position, props.tornadoPos;
    var d := p.Sub(t);
    var away := Normalize(m, d);
    assert p.Add(away.Scale(k)).Sub(t) == d.Add(away.Scale(k));
    PushAlong(m, d, k);
  }

  /** Moving `k` along the unit direction of a non-zero `d` lengthens it by exactly `k`. */
  lemma PushAlong(m: MathLib, d: Vec3, k: real)
    requires Lawful(m) && d.LengthSq() > 0.0 && k >= 0.0
    ensures m.sqrt(d.Add(Normalize(m, d).Scale(k)).LengthSq()) == m.sqrt(d.LengthSq()) + k
  {
    NormalizeNonZero(m, d);
    var len := m.sqrt(d.LengthSq());
    StretchAlong(d, len, k);
    SqrtUnique(m, (len + k) * (len + k), len + k);
  }

  /** The algebra behind `PushAlong`, with `len` any positive square root of the squared length. */
  lemma StretchAlong(d: Vec3, len: real, k: real)
    requires len > 0.0 && len * len == d.LengthSq()
    ensures d.Add(d.Scale(1.0 / len).Scale(k)).LengthSq() == (len + k) * (len + k)
  {
    StretchVector(d, len, k);
    ScaleLengthSq(d, 1.0 + k / len);
    StretchFactor(d.LengthSq(), len, k);
  }

  /** Adding `k / len` of a vector scales it by `1 + k / len`. */
  lemma StretchVector(d: Vec3, len: real, k: real)
    requires len > 0.0
    ensures d.Add(d.Scale(1.0 / len).Scale(k)) == d.Scale(1.0 + k / len)
  {
    StretchCoord(d.x, len, k);
    StretchCoord(d.y, len, k);
    StretchCoord(d.z, len, k);
  }

  /** One coordinate of the stretch: adding `k / len` of it scales it by `1 + k / len`. */
  lemma StretchCoord(a: real, len: real, k: real)
    requires len > 0.0
    ensures a + (a * (1.0 / len)) * k == a * (1.0 + k / len)
  {
    assert (a * (1.0 / len)) * k == a * (k / len);
  }

  /** With `l == len * len`: `(1 + k / len)^2 l == (len + k)^2`. */
  lemma StretchFactor(l: real, len: real, k: real)
    requires len > 0.0 && l == len * len
    ensures var c := 1.0 + k / len; c * c * l == (len + k) * (len + k)
  {
    var c := 1.0 + k / len;
    assert c * len == len + k;
    assert c * c * (len * len) == (c * len) * (c * len);
  }

  /** Outside the pull radius a grounded car shows the session's position and heading, and its flight record is untouched. */
  lemma GroundedCopy(m: MathLib, s: CarState, props: CarProps, delta: real)
    requires !s.flight.isFlying && !InPullRadius(m, s.pose, props)
    ensures var r := CarStep(m, s, props, delta);
      && r.flight == s.flight
      && r.pose.position == props.position && r.pose.rotationY == props.rotation
      && r.pose.rotationX == s.pose.rotationX && r.pose.rotationZ == s.pose.rotationZ
  {
  }

  /**
   * Landing: when a flying car ends the frame more than 0.5 below its resting
   * height it stops flying, loses its vertical speed, sits exactly at the
   * resting height and is drawn level; the spin accumulators keep their values.
   */
  lemma Landing(m: MathLib, s: CarState, props: CarProps, delta: real)
    requires !InPullRadius(m, s.pose, props) && s.flight.isFlying
    requires s.pose.position.y + s.flight.velocityY * delta < props.position.y - LandingSlack
    ensures var r := CarStep(m, s, props, delta);
      && !r.flight.isFlying && r.flight.velocityY == 0.0
      && r.pose.position.y == props.position.y
      && r.pose.rotationX == 0.0 && r.pose.rotationZ == 0.0
      && r.flight.rotationX == s.flight.rotationX && r.flight.rotationZ == s.flight.rotationZ
  {
  }

  /**
   * In free flight the vertical speed drops by exactly `49 * delta` each
   * frame, so it strictly decreases when time moves on.
   */
  lemma FreeFlight(m: MathLib, s: CarState, props: CarProps, delta: real)
    requires !InPullRadius(m, s.pose, props) && s.flight.isFlying && delta > 0.0
    requires s.pose.position.y + s.flight.velocityY * delta >= props.position.y - LandingSlack
    ensures var r := CarStep(m, s, props, delta);
      && r.flight.isFlying
      && r.flight.velocityY == s.flight.velocityY - Gravity * delta < s.flight.velocityY
      && r.pose.position.y == s.pose.position.y + s.flight.velocityY * delta
  {
  }

  /** The spin accumulators never decrease and are never reset, not even by a landing. */
  lemma SpinNeverResets(m: MathLib, s: CarState, props: CarProps, delta: real)
    requires delta >= 0.0
    ensures var r := CarStep(m, s, props, delta);
      && r.flight.rotationX >= s.flight.rotationX && r.flight.rotationZ >= s.flight.rotationZ
      && (delta > 0.0 ==> (InPullRadius(m, s.pose, props) <==> r.flight.rotationX > s.flight.rotationX))
  {
  }

  /** The descent measures: frames left climbing, then a bound on frames left falling. */
  function Climb(f: Flight, delta: real): nat
    requires delta > 0.0
  {
    if f.velocityY > 0.0 then FloorOfRatio(f.velocityY, Gravity * delta) + 1 else 0
  }

  function Fall(s: CarState, props: CarProps, delta: real): nat
    requires delta > 0.0
  {
    var floorY := props.position.y - LandingSlack;
    var y := s.pose.position.y;
    if s.flight.velocityY <= 0.0 && y >= floorY then
      FloorOfRatio(y - floorY, FallUnit(delta))
        + (if s.flight.velocityY > -Gravity * delta then 2 else 1)
    else 0
  }

  /** How far a frame at `delta` drops a car falling at `49 * delta` or faster. */
  function FallUnit(delta: real): (h: real)
    requires delta > 0.0
    ensures h > 0.0
  {
    var g := Gravity * delta;
    MulPos(g, delta);
    g * delta
  }

  function FloorOfRatio(a: real, h: real): nat
    requires a >= 0.0 && h > 0.0
  {
    DivMonotone(0.0, a, h);
    (a / h).Floor
  }

  /**
   * A flying car that the tornado no longer reaches lands: with a constant
   * frame time, after some number of frames it is on the ground.
   */
  lemma {:induction false} EventuallyLands(m: MathLib, s: CarState, props: CarProps, delta: real)
    requires delta > 0.0
    requires forall n: nat :: !InPullRadius(m, Run(m, s, props, delta, n).pose, props)
    ensures exists n: nat :: !Run(m, s, props, delta, n).flight.isFlying
    decreases Climb(s.flight, delta), Fall(s, props, delta)
  {
    assert Run(m, s, props, delta, 0) == s;
    if !s.flight.isFlying {
      return;
    }
    var s' := Settle(s, props, delta);
    assert CarStep(m, s, props, delta) == s';
    assert Run(m, s, props, delta, 1) == s';
    if !s'.flight.isFlying {
      return;
    }
    forall n: nat ensures !InPullRadius(m, Run(m, s', props, delta, n).pose, props) {
      assert Run(m, s, props, delta, n + 1) == Run(m, s', props, delta, n);
    }
    DescentProgress(s, props, delta);
    EventuallyLands(m, s', props, delta);
    var n: nat :| !Run(m, s', props, delta, n).flight.isFlying;
    assert Run(m, s, props, delta, n + 1) == Run(m, s', props, delta, n);
  }

  /** Each frame of free flight that does not land makes the descent measures smaller. */
  lemma DescentProgress(s: CarState, props: CarProps, delta: real)
    requires delta > 0.0 && s.flight.isFlying && Settle(s, props, delta).flight.isFlying
    ensures var s' := Settle(s, props, delta);
      || Climb(s'.flight, delta) < Climb(s.flight, delta)
      || (Climb(s'.flight, delta) == Climb(s.flight, delta) && Fall(s', props, delta) < Fall(s, props, delta))
  {
    var g := Gravity * delta;
    var vy := s.flight.velocityY;
    if vy > 0.0 {
      if vy - g > 0.0 {
        DivShift(vy, g);
      }
    } else {
      var s' := Settle(s, props, delta);
      assert s'.pose.position.y == s.pose.position.y + vy * delta;
      assert s'.flight.velocityY == vy - g;
      FallProgress(vy, s.pose.position.y, props.position.y - LandingSlack, delta);
      assert Climb(s'.flight, delta) == 0 && Climb(s.flight, delta) == 0;
    }
  }

  /** Falling: the height bound shrinks by a whole step, or the speed passes `-49 * delta`. */
  lemma FallProgress(vy: real, y: real, floorY: real, delta: real)
    requires delta > 0.0 && vy <= 0.0 && y + vy * delta >= floorY
    ensures var g, y' := Gravity * delta, y + vy * delta;
      && y >= floorY
      && FloorOfRatio(y' - floorY, FallUnit(delta)) + 1
         < FloorOfRatio(y - floorY, FallUnit(delta)) + (if vy > -g then 2 else 1)
  {
    var g := Gravity * delta;
    var h := FallUnit(delta);
    var y' := y + vy * delta;
    MulMonotone(vy, 0.0, delta);
    DivMonotone(y' - floorY, y - floorY, h);
    FloorMonotone((y' - floorY) / h, (y - floorY) / h);
    if vy <= -g {
      MulMonotone(vy, -g, delta);
      DivMonotone(y' - floorY, (y - floorY) - h, h);
      DivShift(y - floorY, h);
      FloorMonotone((y' - floorY) / h, (y - floorY) / h - 1.0);
      FloorShift((y - floorY) / h);
    }
  }

  /** The rendered car: the `flyRef` record and the drawn group. */
  class Car {
    var velocityY: real
    var isFlying: bool
    var spinX: real
    var spinZ: real
    var position: Vec3
    var rotationX: real
    var rotationY: real
    var rotationZ: real

    function State(): CarState
      reads this
    {
      CarState(Flight(velocityY, isFlying, spinX, spinZ), Pose(position, rotationX, rotationY, rotationZ))
    }

    /** A freshly mounted car is at rest and not flying. */
    constructor (start: Pose)
      ensures State() == CarState(Flight(0.0, false, 0.0, 0.0), start)
    {
      velocityY, isFlying, spinX, spinZ := 0.0, false, 0.0, 0.0;
      position, rotationX, rotationY, rotationZ := start.position, start.rotationX, start.rotationY, start.rotationZ;
    }

    /** The `useFrame` callback. */
    method Frame(m: MathLib, props: CarProps, delta: real)
      modifies this
      ensures State() == CarStep(m, old(State()), props, delta)
    {
      Grab(m, props, delta);
      Integrate(props, delta);
    }

    /** The pull test and its effect (the first half of the callback). */
    method Grab(m: MathLib, props: CarProps, delta: real)
      modifies this
      ensures State() == if InPullRadius(m, old(State()).pose, props) then Pulled(m, old(State()), props, delta) else old(State())
    {
      var dist := Dist(m, position, props.tornadoPos);
      var pullThreshold := PullThreshold(props.model, props.chassis);
      var pullStrength := PullStrength(props.model, props.chassis);
      if dist < pullThreshold {
        isFlying := true;
        velocityY := velocityY + delta * (pullStrength / 2.0);
        spinX := spinX + delta * 5.0;
        spinZ := spinZ + delta * 3.0;
        var dirAway := Normalize(m, position.Sub(props.tornadoPos));
        position := position.Add(dirAway.Scale(delta * pullStrength));
      }
    }

    /** Flight integration and landing, or the copy of the session's record (the second half). */
    method Integrate(props: CarProps, delta: real)
      modifies this
      ensures State() == Settle(old(State()), props, delta)
    {
      if isFlying {
        position := position.(y := position.y + velocityY * delta);
        velocityY := velocityY - 9.8 * delta * 5.0;
        rotationX := spinX;
        rotationZ := spinZ;
        if position.y < props.position.y - LandingSlack {
          isFlying := false;
          velocityY := 0.0;
          position := position.(y := props.position.y);
          rotationX := 0.0;
          rotationZ := 0.0;
        }
      } else {
        position := props.position;
        rotationY := props.rotation;
      }
    }
  }
}
