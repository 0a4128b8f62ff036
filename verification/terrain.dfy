/**
 * The terrain height field and the road test (components/Terrain.tsx).
 *
 * The height is a gentle sinusoidal undulation of amplitude 8, plus a
 * quadratic wall that starts `Margin` units inside the edge of the square
 * ground and reaches 150 at the edge, so nothing can leave the play area.
 */
module Terrain {
  import opened Numerics

  const Margin: real := 30.0
  const GroundSize: real := 1500.0
  const RoadWidth: real := 10.0
  const RoadSpacing: real := 300.0

  /** Distance from the centre in the max-norm: which side of the square is nearest. */
  function EdgeDist(x: real, z: real): real {
    Max(Abs(x), Abs(z))
  }

  /** Where the wall begins, measured in `EdgeDist`. */
  function WallStart(size: real): real {
    size / 2.0 - Margin
  }

  function Undulation(m: MathLib, x: real, z: real): real {
    m.sin(x / 80.0) * m.cos(z / 80.0) * 8.0
  }

  /** The wall term at `edgeDist` (it applies only past `WallStart(size)`). */
  function Wall(edgeDist: real, size: real): real {
    var f := (edgeDist - WallStart(size)) / Margin;
    f * f * 150.0
  }

  /** `getTerrainHeight`: the ground's elevation at `(x, z)`. */
  function Height(m: MathLib, x: real, z: real, size: real := GroundSize): real {
    var e := EdgeDist(x, z);
    var height := Undulation(m, x, z);
    if e > WallStart(size) then height + Wall(e, size) else height
  }

  /**
   * The ground is never below -8, at most 8 where there is no wall, and at
   * least 142 at and beyond the edge, so the wall always rises above the
   * undulation there.
   */
  lemma HeightBounds(m: MathLib, x: real, z: real, size: real)
    requires Lawful(m)
    ensures var h := Height(m, x, z, size);
      && h >= -8.0
      && (EdgeDist(x, z) <= WallStart(size) ==> h <= 8.0)
      && (EdgeDist(x, z) >= size / 2.0 ==> h >= 142.0)
  {
    UndulationBounded(m, x, z);
    var e := EdgeDist(x, z);
    if e > WallStart(size) {
      WallPastEdge(e, size);
    }
  }

  lemma UndulationBounded(m: MathLib, x: real, z: real)
    ensures Lawful(m) ==> -8.0 <= Undulation(m, x, z) <= 8.0
  {
    if Lawful(m) {
      var s, c := m.sin(x / 80.0), m.cos(z / 80.0);
      ProductOfUnitBounded(s, c);
    }
  }

  lemma ProductOfUnitBounded(s: real, c: real)
    requires -1.0 <= s <= 1.0 && -1.0 <= c <= 1.0
    ensures -1.0 <= s * c <= 1.0
  {
    MulNonNeg(1.0 - s, 1.0 - c);
    MulNonNeg(1.0 + s, 1.0 + c);
    MulNonNeg(1.0 - s, 1.0 + c);
    MulNonNeg(1.0 + s, 1.0 - c);
    assert (1.0 - s) * (1.0 - c) == 1.0 - s - c + s * c;
    assert (1.0 + s) * (1.0 + c) == 1.0 + s + c + s * c;
    assert (1.0 - s) * (1.0 + c) == 1.0 - s + c - s * c;
    assert (1.0 + s) * (1.0 - c) == 1.0 + s - c - s * c;
  }

  /** Inside the margin there is no wall: the height is the undulation alone. */
  lemma FlatInsideMargin(m: MathLib, x: real, z: real, size: real)
    requires EdgeDist(x, z) <= WallStart(size)
    ensures Height(m, x, z, size) == Undulation(m, x, z)
  {
  }

  /** The wall is zero where it starts and grows with the distance past it. */
  lemma WallGrows(e1: real, e2: real, size: real)
    requires WallStart(size) <= e1 <= e2
    ensures Wall(WallStart(size), size) == 0.0
    ensures 0.0 <= Wall(e1, size) <= Wall(e2, size)
    ensures e1 < e2 ==> Wall(e1, size) < Wall(e2, size)
    ensures e1 == size / 2.0 ==> Wall(e1, size) == 150.0
  {
    var f1 := (e1 - WallStart(size)) / Margin;
    var f2 := (e2 - WallStart(size)) / Margin;
    MulNonNeg(f1, f1);
    if f1 < f2 {
      SquareMonotone(f1, f2);
    }
  }

  lemma WallPastEdge(e: real, size: real)
    requires e > WallStart(size)
    ensures Wall(e, size) >= 0.0
    ensures e >= size / 2.0 ==> Wall(e, size) >= 150.0
  {
    WallGrows(WallStart(size), e, size);
    if e >= size / 2.0 {
      WallGrows(size / 2.0, e, size);
    }
  }

  /**
   * No jump where the wall starts: within `Margin * d` past the start the wall
   * is at most `150 * d * d`, which goes to 0 with `d`.
   */
  lemma WallVanishesAtStart(e: real, d: real, size: real)
    requires 0.0 <= d && WallStart(size) <= e <= WallStart(size) + Margin * d
    ensures 0.0 <= Wall(e, size) <= 150.0 * d * d
  {
    var f := (e - WallStart(size)) / Margin;
    assert 0.0 <= f <= d;
    MulNonNeg(f, f);
    if f < d {
      SquareMonotone(f, d);
    }
  }

  /**
   * The height only depends on `|z|`. The terrain mesh is built in the x/y
   * plane and laid flat by a rotation that sends plane `y` to world `-z`; this
   * is why the mesh shows the same heights the simulation samples.
   */
  lemma HeightEvenInZ(m: MathLib, x: real, z: real, size: real)
    requires Lawful(m)
    ensures Height(m, x, -z, size) == Height(m, x, z, size)
  {
    assert (-z) / 80.0 == -(z / 80.0);
    assert Undulation(m, x, -z) == Undulation(m, x, z);
    assert EdgeDist(x, -z) == EdgeDist(x, z);
  }

  /** One coordinate is on a road line: JavaScript's `Math.abs(a % 300) < 10`. */
  predicate OnRoadLine(a: real) {
    Abs(JsRem(a, RoadSpacing)) < RoadWidth
  }

  /** `isOnRoad`: roads run along both axes every 300 units. */
  predicate IsOnRoad(x: real, z: real) {
    OnRoadLine(x) || OnRoadLine(z)
  }

  /** The truncating remainder makes the road test symmetric in sign and in the two axes. */
  lemma IsOnRoadSymmetric(x: real, z: real)
    ensures IsOnRoad(-x, z) == IsOnRoad(x, z)
    ensures IsOnRoad(x, -z) == IsOnRoad(x, z)
    ensures IsOnRoad(z, x) == IsOnRoad(x, z)
  {
    JsRemOdd(x, RoadSpacing);
    JsRemOdd(z, RoadSpacing);
  }

  /** Both axes are roads. */
  lemma OnRoadNearAxis(x: real, z: real)
    requires Abs(x) < RoadWidth
    ensures IsOnRoad(x, z) && IsOnRoad(z, x)
  {
    JsRemSmall(x, RoadSpacing);
  }

  /**
   * On the positive side, in the k-th 300-unit band the road is the first 10
   * units of the band and nothing else: truncation puts the road on one side
   * of each line (the mirror side for negative coordinates).
   */
  lemma RoadBand(a: real, k: int)
    requires k >= 0 && RoadSpacing * k as real <= a < RoadSpacing * (k + 1) as real
    ensures OnRoadLine(a) <==> a < RoadSpacing * k as real + RoadWidth
  {
    var q := a / RoadSpacing;
    assert k as real <= q < (k + 1) as real;
    assert q.Floor == k;
    assert JsRem(a, RoadSpacing) == RoadSpacing * (q - k as real);
  }

  /** A vertex colour (the sRGB channels of the hex colour, each divided by 255). */
  datatype Rgb = Rgb(r: real, g: real, b: real)

  const RoadColour: Rgb := Rgb(74.0 / 255.0, 55.0 / 255.0, 40.0 / 255.0)   // #4a3728
  const GrassColour: Rgb := Rgb(26.0 / 255.0, 77.0 / 255.0, 26.0 / 255.0)  // #1a4d1a

  function ColourAt(x: real, y: real): Rgb {
    if IsOnRoad(x, y) then RoadColour else GrassColour
  }

  /**
   * The geometry builder: the plane's vertices are `(x, y, z)` triples; each
   * gets its height as `z`, and a colour triple chosen by the road test.
   */
  method FillGeometry(m: MathLib, vertices: array<real>, size: real) returns (colours: array<real>)
    requires vertices.Length % 3 == 0
    modifies vertices
    ensures fresh(colours) && colours.Length == vertices.Length
    ensures forall k :: 0 <= k < vertices.Length / 3 ==>
      && vertices[3 * k] == old(vertices[3 * k])
      && vertices[3 * k + 1] == old(vertices[3 * k + 1])
      && vertices[3 * k + 2] == Height(m, vertices[3 * k], vertices[3 * k + 1], size)
      && Rgb(colours[3 * k], colours[3 * k + 1], colours[3 * k + 2]) == ColourAt(vertices[3 * k], vertices[3 * k + 1])
  {
    colours := new real[vertices.Length];
    var n := vertices.Length / 3;
    var k := 0;
    while k < n
      invariant 0 <= k <= n
      invariant forall j :: k <= j < n ==>
        && vertices[3 * j] == old(vertices[3 * j])
        && vertices[3 * j + 1] == old(vertices[3 * j + 1])
      invariant forall j :: 0 <= j < k ==>
        && vertices[3 * j] == old(vertices[3 * j])
        && vertices[3 * j + 1] == old(vertices[3 * j + 1])
        && vertices[3 * j + 2] == Height(m, vertices[3 * j], vertices[3 * j + 1], size)
        && Rgb(colours[3 * j], colours[3 * j + 1], colours[3 * j + 2]) == ColourAt(vertices[3 * j], vertices[3 * j + 1])
    {
      FillVertex(m, vertices, colours, k, size);
      k := k + 1;
    }
  }

  /** Vertex `k`: its height from the terrain function and its colour from the road test; no other entry changes. */
  method FillVertex(m: MathLib, vertices: array<real>, colours: array<real>, k: int, size: real)
    requires vertices != colours && colours.Length == vertices.Length && 0 <= k && 3 * k + 2 < vertices.Length
    modifies vertices, colours
    ensures vertices[3 * k] == old(vertices[3 * k]) && vertices[3 * k + 1] == old(vertices[3 * k + 1])
    ensures vertices[3 * k + 2] == Height(m, vertices[3 * k], vertices[3 * k + 1], size)
    ensures Rgb(colours[3 * k], colours[3 * k + 1], colours[3 * k + 2]) == ColourAt(vertices[3 * k], vertices[3 * k + 1])
    ensures forall i :: 0 <= i < vertices.Length && i != 3 * k + 2 ==> vertices[i] == old(vertices[i])
    ensures forall i :: 0 <= i < colours.Length && i != 3 * k && i != 3 * k + 1 && i != 3 * k + 2 ==> colours[i] == old(colours[i])
  {
    var x := vertices[3 * k];
    var y := vertices[3 * k + 1];
    vertices[3 * k + 2] := Height(m, x, y, size);
    var colour := if IsOnRoad(x, y) then RoadColour else GrassColour;
    colours[3 * k] := colour.r;
    colours[3 * k + 1] := colour.g;
    colours[3 * k + 2] := colour.b;
  }
}
