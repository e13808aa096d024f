/** Walls and roofs of buildingFactory.js: createWallGeometry and
    createRoofGeometry with its pyramidal triangle fan. */
module Roofs {
  import opened Js
  import opened Features

  /** The extrusion three.js builds for a wall, turned upright. */
  function WallGeometry(shape: Shape, height: Num): Geometry {
    Geometry(Extrusion(shape, height), [TiltUp, HalfTurn])
  }

  // ---------------------------------------------------------------------
  // The pyramidal fan, as functions

  function SumX(ps: seq<Vec2>): Num {
    if ps == [] then Fin(0.0) else Add(SumX(ps[..|ps| - 1]), ps[|ps| - 1].x)
  }

  function SumY(ps: seq<Vec2>): Num {
    if ps == [] then Fin(0.0) else Add(SumY(ps[..|ps| - 1]), ps[|ps| - 1].y)
  }

  /** The mean of the points, summed in order from (0, 0) and divided by
      their count as three.js does. */
  function Centroid(ps: seq<Vec2>): Vec2 {
    Vec2(DivideByCount(SumX(ps), |ps|), DivideByCount(SumY(ps), |ps|))
  }

  /** The outline points at z = 0, then the apex above the centroid. */
  function PyramidVertices(ps: seq<Vec2>, roofHeight: Num): (vs: seq<Vec3>)
    ensures |vs| == |ps| + 1
    ensures forall i :: 0 <= i < |ps| ==> vs[i] == Vec3(ps[i].x, ps[i].y, Fin(0.0))
    ensures vs[|ps|] == Vec3(Centroid(ps).x, Centroid(ps).y, roofHeight)
  {
    seq(|ps|, i requires 0 <= i < |ps| => Vec3(ps[i].x, ps[i].y, Fin(0.0)))
      + [Vec3(Centroid(ps).x, Centroid(ps).y, roofHeight)]
  }

  /** The positions as an x, y, z array. */
  function FlattenVec3(vs: seq<Vec3>): seq<Num> {
    if vs == [] then [] else FlattenVec3(vs[..|vs| - 1]) + [vs[|vs| - 1].x, vs[|vs| - 1].y, vs[|vs| - 1].z]
  }

  lemma {:induction false} FlattenVec3At(vs: seq<Vec3>)
    ensures |FlattenVec3(vs)| == 3 * |vs|
    ensures forall i :: 0 <= i < |vs| ==>
      FlattenVec3(vs)[3 * i] == vs[i].x && FlattenVec3(vs)[3 * i + 1] == vs[i].y && FlattenVec3(vs)[3 * i + 2] == vs[i].z
  {
    if vs != [] {
      var init := vs[..|vs| - 1];
      FlattenVec3At(init);
      forall i | 0 <= i < |init| ensures vs[i] == init[i] { }
    }
  }

  function FanPositions(ps: seq<Vec2>, roofHeight: Num): seq<Num> {
    FlattenVec3(PyramidVertices(ps, roofHeight))
  }

  /** The indices pushed by the first k steps of the fan loop over n points:
      triangle i is (i, (i + 1) mod n, n). */
  function FanPrefix(k: nat, n: nat): seq<nat>
    requires n > 0
  {
    if k == 0 then [] else FanPrefix(k - 1, n) + [k - 1, k % n, n]
  }

  function FanIndices(n: nat): seq<nat>
    requires n > 0
  {
    FanPrefix(n, n)
  }

  lemma {:induction false} FanPrefixAt(k: nat, n: nat)
    requires n > 0
    ensures |FanPrefix(k, n)| == 3 * k
    ensures forall t :: 0 <= t < k ==>
      FanPrefix(k, n)[3 * t] == t && FanPrefix(k, n)[3 * t + 1] == (t + 1) % n && FanPrefix(k, n)[3 * t + 2] == n
  {
    if k > 0 {
      FanPrefixAt(k - 1, n);
    }
  }

  /** A fan over n points has n triangles (i, (i + 1) mod n, n), all of whose
      indices name one of the n + 1 vertices, and every triangle shares the
      apex n. */
  lemma FanIndicesShape(n: nat)
    requires n > 0
    ensures |FanIndices(n)| == 3 * n
    ensures forall t :: 0 <= t < n ==>
      FanIndices(n)[3 * t] == t && FanIndices(n)[3 * t + 1] == (t + 1) % n && FanIndices(n)[3 * t + 2] == n
    ensures forall k :: 0 <= k < |FanIndices(n)| ==> FanIndices(n)[k] < n + 1
  {
    FanPrefixAt(n, n);
    forall k | 0 <= k < 3 * n ensures FanIndices(n)[k] < n + 1 {
      var t := k / 3;
      assert k == 3 * t + k % 3;
    }
  }

  /** The fan positions: n + 1 vertices, the outline at z = 0 and the apex,
      at vertex n, above the centroid at the roof height. */
  lemma FanPositionsShape(ps: seq<Vec2>, roofHeight: Num)
    ensures |FanPositions(ps, roofHeight)| == 3 * (|ps| + 1)
    ensures forall i :: 0 <= i < |ps| ==>
      FanPositions(ps, roofHeight)[3 * i] == ps[i].x && FanPositions(ps, roofHeight)[3 * i + 1] == ps[i].y
      && FanPositions(ps, roofHeight)[3 * i + 2] == Fin(0.0)
    ensures FanPositions(ps, roofHeight)[3 * |ps|] == Centroid(ps).x
    ensures FanPositions(ps, roofHeight)[3 * |ps| + 1] == Centroid(ps).y
    ensures FanPositions(ps, roofHeight)[3 * |ps| + 2] == roofHeight
  {
    FlattenVec3At(PyramidVertices(ps, roofHeight));
  }

  // ---------------------------------------------------------------------
  // The pyramidal fan, as the loops of createRoofGeometry

  /** The loop that sums the points, x and y apart, from 0. */
  method SumPoints(points: seq<Vec2>) returns (cx: Num, cy: Num)
    ensures cx == SumX(points) && cy == SumY(points)
  {
    cx, cy := Fin(0.0), Fin(0.0);
    for i := 0 to |points|
      invariant cx == SumX(points[..i]) && cy == SumY(points[..i])
    {
      assert points[..i + 1][..i] == points[..i];
      cx, cy := Add(cx, points[i].x), Add(cy, points[i].y);
    }
    assert points[..|points|] == points;
  }

  /** The loop that pushes every outline point at z = 0, then the push of
      the apex. */
  method PushVertices(points: seq<Vec2>, centroid: Vec2, roofHeight: Num) returns (vertices: seq<Vec3>)
    requires centroid == Centroid(points)
    ensures vertices == PyramidVertices(points, roofHeight)
  {
    vertices := [];
    for i := 0 to |points|
      invariant |vertices| == i
      invariant forall k :: 0 <= k < i ==> vertices[k] == Vec3(points[k].x, points[k].y, Fin(0.0))
    {
      vertices := vertices + [Vec3(points[i].x, points[i].y, Fin(0.0))];
    }
    vertices := vertices + [Vec3(centroid.x, centroid.y, roofHeight)];
  }

  /** The loop that pushes triangle (i, (i + 1) mod n, apex) for each i. */
  method PushFanIndices(n: nat) returns (indices: seq<nat>)
    requires n > 0
    ensures indices == FanIndices(n)
  {
    indices := [];
    for i := 0 to n
      invariant indices == FanPrefix(i, n)
    {
      var next := (i + 1) % n;
      indices := indices + [i, next, n];
    }
  }

  /** The loop that fills a Float32Array of three entries per vertex in
      place. */
  method FillPositions(vertices: seq<Vec3>) returns (positions: seq<Num>)
    ensures positions == FlattenVec3(vertices)
  {
    var positionArray := new Num[|vertices| * 3];
    for i := 0 to |vertices|
      invariant positionArray[..3 * i] == FlattenVec3(vertices[..i])
    {
      assert vertices[..i + 1][..i] == vertices[..i];
      positionArray[i * 3] := vertices[i].x;
      positionArray[i * 3 + 1] := vertices[i].y;
      positionArray[i * 3 + 2] := vertices[i].z;
      assert positionArray[..3 * (i + 1)] == positionArray[..3 * i] + [vertices[i].x, vertices[i].y, vertices[i].z];
    }
    assert vertices[..|vertices|] == vertices;
    positions := positionArray[..];
  }

  /** The pyramidal branch of createRoofGeometry: the centroid, the
      vertices, the fan indices (the apex being the vertex after the
      outline) and the position array. */
  method BuildPyramidFan(points: seq<Vec2>, roofHeight: Num) returns (positions: seq<Num>, indices: seq<nat>)
    requires |points| >= 3
    ensures positions == FanPositions(points, roofHeight)
    ensures indices == FanIndices(|points|)
  {
    var n := |points|;
    var cx, cy := SumPoints(points);
    var centroid := Vec2(DivideByCount(cx, n), DivideByCount(cy, n));
    var vertices := PushVertices(points, centroid, roofHeight);
    indices := PushFanIndices(n);
    positions := FillPositions(vertices);
  }

  // ---------------------------------------------------------------------
  // createRoofGeometry

  /** The roof kinds the switch tells apart, after lowercasing. */
  datatype RoofKind = FlatKind | PyramidalKind | OtherKind

  function RoofKindOf(roofType: string): (k: RoofKind)
    ensures k == FlatKind <==> Lower(roofType) == "flat"
    ensures k == PyramidalKind <==> Lower(roofType) == "pyramidal"
  {
    var lowered := Lower(roofType);
    if lowered == "flat" then FlatKind
    else if lowered == "pyramidal" then PyramidalKind
    else OtherKind
  }

  /** The roof geometry: a fan over the sampled outline for a pyramidal roof
      with at least three sampled points, and the flat extrusion by the roof
      height in every other case; either way turned upright like a wall. */
  function RoofGeometry(shape: Shape, roofHeight: Num, roofType: string, geo: Geo): (g: Geometry)
    ensures g.transforms == [TiltUp, HalfTurn]
    ensures g.body.Fan? <==> RoofKindOf(roofType) == PyramidalKind && |geo.getPoints(shape)| >= 3
    ensures !g.body.Fan? ==> g.body == Extrusion(shape, roofHeight)
    ensures g.body.Fan? ==>
      g.body == Fan(FanPositions(geo.getPoints(shape), roofHeight), FanIndices(|geo.getPoints(shape)|))
    ensures g.body.Fan? ==>
      var n := |geo.getPoints(shape)|;
      |g.body.positions| == 3 * (n + 1) && g.body.positions[3 * n + 2] == roofHeight &&
      |g.body.indices| == 3 * n && forall k :: 0 <= k < 3 * n ==> g.body.indices[k] < n + 1
  {
    var body :=
      match RoofKindOf(roofType)
      case FlatKind => Extrusion(shape, roofHeight)
      case PyramidalKind =>
        var points := geo.getPoints(shape);
        if |points| < 3 then Extrusion(shape, roofHeight)
        else Fan(FanPositions(points, roofHeight), FanIndices(|points|))
      case OtherKind => Extrusion(shape, roofHeight);
    if body.Fan? then
      FanIndicesShape(|geo.getPoints(shape)|);
      FanPositionsShape(geo.getPoints(shape), roofHeight);
      Geometry(body, [TiltUp, HalfTurn])
    else Geometry(body, [TiltUp, HalfTurn])
  }
}
