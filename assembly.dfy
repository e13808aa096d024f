/** The per-feature part of buildingFactory.js: generateExtraParts and
    generateEnhancedBuildingMesh. */
module Assembly {
  import opened Js
  import opened Features
  import opened Lengths
  import opened Rings
  import opened Heights
  import opened Roofs

  /** `feature.geometry.coordinates[0]` as getShapeFromCoordinates receives
      it: a Polygon's outer ring, or a MultiPolygon's whole first polygon. */
  function FirstCoords(g: FeatureGeometry): ShapeArg {
    match g
    case Polygon(rings) => if |rings| > 0 then RingArg(rings[0]) else NoCoords
    case MultiPolygon(polygons) => if |polygons| > 0 then PolygonArg(polygons[0]) else NoCoords
    case OtherGeometry(_, _) => NoCoords
  }

  /** `props[key].toLowerCase()`, which throws on a number. */
  function LowerTag(v: TagValue): Result<string> {
    match v
    case Text(s) => Ok(Lower(s))
    case Number(_) => Err(LowerCaseOfNumber)
  }

  /** A bare part: `building:part` is "yes" in any case and `building` is
      not set. */
  predicate WantsPartWall(props: Props) {
    HasTag(props, "building:part") && props["building:part"].Text?
    && Lower(props["building:part"].s) == "yes" && !HasTag(props, "building")
  }

  /** A place of worship, a church or a tower part (compared exactly). */
  predicate IsTowerFeature(props: Props) {
    TagIs(props, "amenity", "place_of_worship") || TagIs(props, "building", "church")
    || TagIs(props, "building:part", "tower")
  }

  function TowerHeight(props: Props, parse: string -> Num): Num {
    NormalizeLength(if HasTag(props, "tower:height") then props["tower:height"] else Text("10"), parse)
  }

  /** The tower: a cylinder of radius 1 and 16 segments, moved to the
      centroid of the sampled outline and up by half its height when there
      is a shape, left in place otherwise. */
  function TowerMesh(props: Props, shape: Option<Shape>, geo: Geo): Mesh {
    var height := TowerHeight(props, geo.parseFloat);
    var cylinder := Cylinder(Fin(1.0), Fin(1.0), height, 16);
    match shape
    case None => Mesh(Tower, Geometry(cylinder, []))
    case Some(s) =>
      var c := Centroid(geo.getPoints(s));
      Mesh(Tower, Geometry(cylinder, [Translate(c.x, c.y, Mul(height, Fin(0.5)))]))
  }

  /** The `building:part` test of generateExtraParts: lowercased to "yes"
      with no `building` tag; `toLowerCase` throws on a number. */
  function PartWallWanted(props: Props): (r: Result<bool>)
    ensures r.Err? <==> HasTag(props, "building:part") && props["building:part"].Number?
    ensures r.Ok? ==> r.value == WantsPartWall(props)
  {
    if HasTag(props, "building:part") then
      var lowered :- LowerTag(props["building:part"]);
      Ok(lowered == "yes" && !HasTag(props, "building"))
    else Ok(false)
  }

  /** generateExtraParts: a thin wall of height 1 for a bare part with a
      shape, then a tower for a tower feature, with or without a shape. Only
      a numeric `building:part` throws, from toLowerCase. */
  function ExtraParts(props: Props, first: ShapeArg, ref: Reference, geo: Geo): (r: Result<seq<Mesh>>)
    ensures r.Err? <==> HasTag(props, "building:part") && props["building:part"].Number?
    ensures r.Ok? ==> forall i :: 0 <= i < |r.value| ==> r.value[i].role == Part || r.value[i].role == Tower
    ensures r.Ok? ==>
      var wall := WantsPartWall(props) && GetShape(first, ref, geo).Some?;
      |r.value| == (if wall then 1 else 0) + (if IsTowerFeature(props) then 1 else 0)
      && (wall ==> r.value[0] == Mesh(Part, WallGeometry(GetShape(first, ref, geo).value, Fin(1.0))))
      && (IsTowerFeature(props) ==> r.value[|r.value| - 1] == TowerMesh(props, GetShape(first, ref, geo), geo))
  {
    var wantsWall :- PartWallWanted(props);
    var shape := GetShape(first, ref, geo);
    var partMeshes := if wantsWall && shape.Some? then [Mesh(Part, WallGeometry(shape.value, Fin(1.0)))] else [];
    var towerMeshes := if IsTowerFeature(props) then [TowerMesh(props, shape, geo)] else [];
    Ok(partMeshes + towerMeshes)
  }

  /** The part wall, if wanted and shaped, followed by the tower, if any. */
  function TwoPushes(wantsWall: bool, props: Props, shape: Option<Shape>, geo: Geo): seq<Mesh> {
    (if wantsWall && shape.Some? then [Mesh(Part, WallGeometry(shape.value, Fin(1.0)))] else [])
      + (if IsTowerFeature(props) then [TowerMesh(props, shape, geo)] else [])
  }

  /** ExtraParts unfolded into its two pushes. */
  lemma ExtraPartsUnfolds(props: Props, first: ShapeArg, ref: Reference, geo: Geo, wantsWall: Result<bool>, shape: Option<Shape>)
    requires wantsWall == PartWallWanted(props) && shape == GetShape(first, ref, geo)
    ensures wantsWall.Err? ==> ExtraParts(props, first, ref, geo) == Err(wantsWall.error)
    ensures wantsWall.Ok? ==> ExtraParts(props, first, ref, geo) == Ok(TwoPushes(wantsWall.value, props, shape, geo))
  {
  }

  /** The tower branch of generateExtraParts: the cylinder, and, when there
      is a shape, the loop summing the sampled points into the centroid it is
      moved to. */
  method BuildTower(props: Props, shape: Option<Shape>, geo: Geo) returns (m: Mesh)
    ensures m == TowerMesh(props, shape, geo)
  {
    var height := TowerHeight(props, geo.parseFloat);
    var cylinder := Cylinder(Fin(1.0), Fin(1.0), height, 16);
    if shape.None? {
      return Mesh(Tower, Geometry(cylinder, []));
    }
    var points := geo.getPoints(shape.value);
    var cx, cy := SumPoints(points);
    var centroid := Vec2(DivideByCount(cx, |points|), DivideByCount(cy, |points|));
    return Mesh(Tower, Geometry(cylinder, [Translate(centroid.x, centroid.y, Mul(height, Fin(0.5)))]));
  }

  /** The pushes of generateExtraParts onto `extraMeshes`; a numeric
      `building:part` throws before anything is pushed. */
  method GenerateExtraParts(props: Props, first: ShapeArg, ref: Reference, geo: Geo) returns (r: Result<seq<Mesh>>)
    ensures r == ExtraParts(props, first, ref, geo)
  {
    var wantsWall := PartWallWanted(props);
    var shape := GetShape(first, ref, geo);
    ExtraPartsUnfolds(props, first, ref, geo, wantsWall, shape);
    if wantsWall.Err? {
      return Err(wantsWall.error);
    }
    ghost var walls: seq<Mesh> := if wantsWall.value && shape.Some? then [Mesh(Part, WallGeometry(shape.value, Fin(1.0)))] else [];
    ghost var towers: seq<Mesh> := if IsTowerFeature(props) then [TowerMesh(props, shape, geo)] else [];
    assert TwoPushes(wantsWall.value, props, shape, geo) == walls + towers;
    var extraMeshes: seq<Mesh> := [];
    if wantsWall.value && shape.Some? {
      extraMeshes := extraMeshes + [Mesh(Part, WallGeometry(shape.value, Fin(1.0)))];
    }
    assert extraMeshes == walls;
    if IsTowerFeature(props) {
      var tower := BuildTower(props, shape, geo);
      extraMeshes := extraMeshes + [tower];
    } else {
      assert extraMeshes == walls + [];
    }
    assert extraMeshes == walls + towers;
    return Ok(extraMeshes);
  }

  /** The outer ring and the hole rings generateEnhancedBuildingMesh reads,
      or None for a geometry type it does not support. An empty MultiPolygon
      throws on `coordinates[0][0]`. */
  function OuterAndHoles(g: FeatureGeometry): Result<Option<(ShapeArg, seq<RingInput>)>> {
    match g
    case Polygon(rings) =>
      Ok(Some((if |rings| > 0 then RingArg(rings[0]) else NoCoords, if |rings| > 0 then rings[1..] else [])))
    case MultiPolygon(polygons) =>
      if |polygons| == 0 then Err(NoFirstPolygon)
      else
        var p := polygons[0];
        Ok(Some((if |p| > 0 then RingArg(p[0]) else NoCoords, if |p| > 0 then p[1..] else [])))
    case OtherGeometry(_, _) => Ok(None)
  }

  /** The positions, from `i` on, of the present values. */
  function PresentIndices<T>(xs: seq<Option<T>>, i: nat): seq<nat>
    requires i <= |xs|
    decreases |xs| - i
  {
    if i == |xs| then []
    else if xs[i].Some? then [i] + PresentIndices(xs, i + 1)
    else PresentIndices(xs, i + 1)
  }

  /** The positions are exactly those of the present values from `i` on,
      in increasing order. */
  lemma {:induction false} PresentIndicesExact<T>(xs: seq<Option<T>>, i: nat)
    requires i <= |xs|
    ensures var ix := PresentIndices(xs, i);
      |ix| <= |xs| - i
      && (forall k :: 0 <= k < |ix| ==> i <= ix[k] < |xs| && xs[ix[k]].Some?)
      && (forall k, l :: 0 <= k < l < |ix| ==> ix[k] < ix[l])
      && (forall j :: i <= j < |xs| && xs[j].Some? ==> j in ix)
    decreases |xs| - i
  {
    if i < |xs| {
      PresentIndicesExact(xs, i + 1);
      var rest := PresentIndices(xs, i + 1);
      if xs[i].Some? {
        var ix := [i] + rest;
        assert PresentIndices(xs, i) == ix;
        assert forall k :: 1 <= k < |ix| ==> ix[k] == rest[k - 1];
      }
    }
  }

  /** When every value from `i` on is present, so is every position. */
  lemma {:induction false} AllPresent<T>(xs: seq<Option<T>>, i: nat)
    requires i <= |xs|
    ensures (forall j :: i <= j < |xs| ==> xs[j].Some?) ==>
      |PresentIndices(xs, i)| == |xs| - i && forall k :: 0 <= k < |xs| - i ==> PresentIndices(xs, i)[k] == i + k
    decreases |xs| - i
  {
    if i < |xs| && forall j :: i <= j < |xs| ==> xs[j].Some? {
      AllPresent(xs, i + 1);
      assert PresentIndices(xs, i) == [i] + PresentIndices(xs, i + 1);
    }
  }

  /** When no value from `i` on is present, no position is. */
  lemma {:induction false} NonePresent<T>(xs: seq<Option<T>>, i: nat)
    requires i <= |xs|
    ensures (forall j :: i <= j < |xs| ==> xs[j].None?) ==> PresentIndices(xs, i) == []
    decreases |xs| - i
  {
    if i < |xs| {
      NonePresent(xs, i + 1);
    }
  }

  /** `.filter(Boolean)` on a list of optional values, from `i` on: the
      present values, in order. */
  function Present<T>(xs: seq<Option<T>>, i: nat): (r: seq<T>)
    requires i <= |xs|
    ensures var ix := PresentIndices(xs, i);
      |r| == |ix| && forall k :: 0 <= k < |r| ==> ix[k] < |xs| && xs[ix[k]].Some? && r[k] == xs[ix[k]].value
    decreases |xs| - i
  {
    if i == |xs| then []
    else
      var rest := Present(xs, i + 1);
      if xs[i].Some? then [xs[i].value] + rest else rest
  }

  /** `holes.map(getShapeFromCoordinates)`. */
  function HoleShapes(holes: seq<RingInput>, ref: Reference, geo: Geo): (r: seq<Option<Shape>>)
    ensures |r| == |holes| && forall i :: 0 <= i < |holes| ==> r[i] == GetShape(RingArg(holes[i]), ref, geo)
  {
    seq(|holes|, i requires 0 <= i < |holes| => GetShape(RingArg(holes[i]), ref, geo))
  }

  /** `holes.map(getShapeFromCoordinates).filter(Boolean)`, as outlines: the
      outlines of the holes that have a shape, in their order. */
  function HoleOutlines(holes: seq<RingInput>, ref: Reference, geo: Geo): (r: seq<seq<Vec2>>)
    ensures var ix := PresentIndices(HoleShapes(holes, ref, geo), 0);
      |r| == |ix| && forall k :: 0 <= k < |r| ==>
        ix[k] < |holes| && GetShape(RingArg(holes[ix[k]]), ref, geo).Some?
        && r[k] == GetShape(RingArg(holes[ix[k]]), ref, geo).value.outline
    ensures |r| <= |holes|
    ensures (forall i :: 0 <= i < |holes| ==> GetShape(RingArg(holes[i]), ref, geo).Some?) ==>
      |r| == |holes| && forall i :: 0 <= i < |holes| ==> r[i] == GetShape(RingArg(holes[i]), ref, geo).value.outline
    ensures (forall i :: 0 <= i < |holes| ==> GetShape(RingArg(holes[i]), ref, geo).None?) ==> r == []
  {
    var shapes := HoleShapes(holes, ref, geo);
    PresentIndicesExact(shapes, 0);
    AllPresent(shapes, 0);
    NonePresent(shapes, 0);
    var kept := Present(shapes, 0);
    seq(|kept|, k requires 0 <= k < |kept| => kept[k].outline)
  }

  /** Every hole that has a shape contributes its outline, and the outlines
      keep the order of their holes. */
  lemma HoleOutlinesKeepShapedHoles(holes: seq<RingInput>, ref: Reference, geo: Geo)
    ensures var ix := PresentIndices(HoleShapes(holes, ref, geo), 0);
      (forall k, l :: 0 <= k < l < |ix| ==> ix[k] < ix[l])
      && forall j :: 0 <= j < |holes| && GetShape(RingArg(holes[j]), ref, geo).Some? ==> j in ix
  {
    PresentIndicesExact(HoleShapes(holes, ref, geo), 0);
  }

  /** The roof mesh: built only for a positive roof height, of the kind
      `roof:shape` names ("flat" by default), and lifted by the wall height. */
  function RoofMesh(props: Props, shape: Shape, h: Heights, geo: Geo): (r: Result<Option<Mesh>>)
    ensures r.Ok? ==> (r.value.Some? <==> Gt(h.roof, Fin(0.0)))
    ensures r.Ok? && r.value.Some? ==>
              r.value.value.role == Roof && |r.value.value.geometry.transforms| > 0
              && r.value.value.geometry.transforms[|r.value.value.geometry.transforms| - 1]
                 == Translate(Fin(0.0), h.wall, Fin(0.0))
  {
    if !Gt(h.roof, Fin(0.0)) then Ok(None)
    else
      var roofType :- LowerTag(if HasTag(props, "roof:shape") then props["roof:shape"] else Text("flat"));
      var g := RoofGeometry(shape, h.roof, roofType, geo);
      Ok(Some(Mesh(Roof, Geometry(g.body, g.transforms + [Translate(Fin(0.0), h.wall, Fin(0.0))]))))
  }

  /** The shape of the outer ring, with the holes that have shapes. */
  function BuildingShape(outer: ShapeArg, holes: seq<RingInput>, ref: Reference, geo: Geo): Option<Shape> {
    match GetShape(outer, ref, geo)
    case None => None
    case Some(s) => Some(Shape(s.outline, HoleOutlines(holes, ref, geo)))
  }

  /** The order in which generateEnhancedBuildingMesh adds meshes to its
      group: the walls, the roof when there is one, then the extra parts. */
  function Assemble(walls: Mesh, roof: Option<Mesh>, extras: seq<Mesh>): (ms: seq<Mesh>)
    ensures |ms| == 1 + (if roof.Some? then 1 else 0) + |extras|
    ensures ms[0] == walls
    ensures roof.Some? ==> ms[1] == roof.value
    ensures forall i :: |ms| - |extras| <= i < |ms| ==> ms[i] == extras[i - (|ms| - |extras|)]
  {
    [walls] + (if roof.Some? then [roof.value] else []) + extras
  }

  /** The group Assemble builds from a lifted roof and at most two parts
      and towers. */
  lemma AssembledLayout(walls: Mesh, roof: Option<Mesh>, extras: seq<Mesh>, wall: Num)
    requires roof.Some? ==>
      roof.value.role == Roof && |roof.value.geometry.transforms| > 0
      && roof.value.geometry.transforms[|roof.value.geometry.transforms| - 1] == Translate(Fin(0.0), wall, Fin(0.0))
    requires |extras| <= 2
    requires forall i :: 0 <= i < |extras| ==> extras[i].role == Part || extras[i].role == Tower
    ensures var ms := Assemble(walls, roof, extras);
      var roofCount := if roof.Some? then 1 else 0;
      1 + roofCount <= |ms| <= 3 + roofCount && ms[0] == walls
      && (roof.Some? ==>
            ms[1].role == Roof && |ms[1].geometry.transforms| > 0
            && ms[1].geometry.transforms[|ms[1].geometry.transforms| - 1] == Translate(Fin(0.0), wall, Fin(0.0)))
      && (forall i :: 1 + roofCount <= i < |ms| ==> ms[i].role == Part || ms[i].role == Tower)
  {
    var ms := Assemble(walls, roof, extras);
    var roofCount := if roof.Some? then 1 else 0;
    forall i | 1 + roofCount <= i < |ms|
      ensures ms[i].role == Part || ms[i].role == Tower
    {
      assert ms[i] == extras[i - (|ms| - |extras|)];
    }
  }

  /** The meshes of a building with a shape: the walls of the wall height
      first, then the roof exactly when the roof height is positive (even
      one taller than the total), lifted by the wall height, then the extra
      parts. */
  function ShapeMeshes(props: Props, shape: Shape, h: Heights, first: ShapeArg, ref: Reference, geo: Geo): (r: Result<seq<Mesh>>)
    ensures r.Ok? ==>
      var roofCount := if Gt(h.roof, Fin(0.0)) then 1 else 0;
      1 + roofCount <= |r.value| <= 3 + roofCount
      && r.value[0] == Mesh(Walls, WallGeometry(shape, h.wall))
      && (roofCount == 1 ==>
            r.value[1].role == Roof && |r.value[1].geometry.transforms| > 0
            && r.value[1].geometry.transforms[|r.value[1].geometry.transforms| - 1]
               == Translate(Fin(0.0), h.wall, Fin(0.0)))
      && (forall i :: 1 + roofCount <= i < |r.value| ==> r.value[i].role == Part || r.value[i].role == Tower)
  {
    var roof :- RoofMesh(props, shape, h, geo);
    var extras :- ExtraParts(props, first, ref, geo);
    AssembledLayout(Mesh(Walls, WallGeometry(shape, h.wall)), roof, extras, h.wall);
    Ok(Assemble(Mesh(Walls, WallGeometry(shape, h.wall)), roof, extras))
  }

  /** generateEnhancedBuildingMesh: no building for a feature without
      `building` and `building:part`, for an unsupported geometry type or when
      the outer ring has no shape; otherwise the meshes of the shape. */
  function BuildingMesh(f: Feature, ref: Reference, geo: Geo): Result<Option<Building>> {
    var props := f.properties;
    if !HasTag(props, "building") && !HasTag(props, "building:part") then Ok(None)
    else if f.geometry.None? then Err(NullGeometry)
    else
      var rings :- OuterAndHoles(f.geometry.value);
      match rings
      case None => Ok(None)
      case Some((outer, holes)) =>
        match BuildingShape(outer, holes, ref, geo)
        case None => Ok(None)
        case Some(shape) =>
          var meshes :- ShapeMeshes(props, shape, ResolveHeights(props, geo.parseFloat), FirstCoords(f.geometry.value), ref, geo);
          Ok(Some(Building(meshes)))
  }

  // ---------------------------------------------------------------------
  // Properties

  /** A feature tagged neither `building` nor `building:part`, or one whose
      geometry is neither a Polygon nor a MultiPolygon, yields no building. */
  lemma NoBuildingWithoutTagsOrPolygon(f: Feature, ref: Reference, geo: Geo)
    requires (!HasTag(f.properties, "building") && !HasTag(f.properties, "building:part"))
          || (f.geometry.Some? && f.geometry.value.OtherGeometry?)
    ensures BuildingMesh(f, ref, geo) == Ok(None)
  {
  }

  /** When generateEnhancedBuildingMesh does not throw, it gives no building
      exactly when neither building tag is set, the geometry type is not
      supported, or the outer ring has no shape. */
  lemma NoBuildingIff(f: Feature, ref: Reference, geo: Geo)
    requires BuildingMesh(f, ref, geo).Ok?
    ensures BuildingMesh(f, ref, geo).value.None? <==>
      (!HasTag(f.properties, "building") && !HasTag(f.properties, "building:part"))
      || (f.geometry.Some? && OuterAndHoles(f.geometry.value).Ok?
          && (OuterAndHoles(f.geometry.value).value.None?
              || GetShape(OuterAndHoles(f.geometry.value).value.value.0, ref, geo).None?))
  {
  }

  /** generateEnhancedBuildingMesh throws exactly for a tagged feature with a
      null geometry or an empty MultiPolygon, unless ShapeMeshes throws. */
  lemma BuildingMeshThrows(f: Feature, ref: Reference, geo: Geo)
    requires HasTag(f.properties, "building") || HasTag(f.properties, "building:part")
    ensures f.geometry.None? ==> BuildingMesh(f, ref, geo) == Err(NullGeometry)
    ensures f.geometry.Some? && f.geometry.value.MultiPolygon? && f.geometry.value.polygons == [] ==>
      BuildingMesh(f, ref, geo) == Err(NoFirstPolygon)
    ensures BuildingMesh(f, ref, geo).Err? && BuildingMesh(f, ref, geo).error != NullGeometry
            && BuildingMesh(f, ref, geo).error != NoFirstPolygon ==>
      BuildingMesh(f, ref, geo).error == LowerCaseOfNumber
  {
    if f.geometry.Some? && OuterAndHoles(f.geometry.value).Ok? && OuterAndHoles(f.geometry.value).value.Some? {
      var (outer, holes) := OuterAndHoles(f.geometry.value).value.value;
      var shape := BuildingShape(outer, holes, ref, geo);
      if shape.Some? {
        ShapeMeshesThrowOnNumbers(f.properties, shape.value, ResolveHeights(f.properties, geo.parseFloat),
                                  FirstCoords(f.geometry.value), ref, geo);
      }
    }
  }

  /** The meshes of a shape can only fail on `toLowerCase` of a number. */
  lemma ShapeMeshesThrowOnNumbers(props: Props, shape: Shape, h: Heights, first: ShapeArg, ref: Reference, geo: Geo)
    ensures ShapeMeshes(props, shape, h, first, ref, geo).Err? ==>
      ShapeMeshes(props, shape, h, first, ref, geo).error == LowerCaseOfNumber
  {
  }

  /** A single point of the outer ring that cannot be projected drops the
      whole building: the projection error is caught and no shape is made. */
  lemma OneBadPointDropsBuilding(f: Feature, ref: Reference, geo: Geo, i: nat)
    requires HasTag(f.properties, "building") || HasTag(f.properties, "building:part")
    requires f.geometry.Some? && OuterAndHoles(f.geometry.value).Ok?
    requires OuterAndHoles(f.geometry.value).value.Some?
    requires var outer := OuterAndHoles(f.geometry.value).value.value.0;
      PointsOf(outer).Some? && i < |PointsOf(outer).value|
      && ToMeters(PointsOf(outer).value[i], ref, true, geo).Err?
    ensures BuildingMesh(f, ref, geo) == Ok(None)
  {
    var outer := OuterAndHoles(f.geometry.value).value.value.0;
    assert GetShape(outer, ref, geo).None?;
  }

  /** Every building is laid out as ShapeMeshes says: walls, the roof when
      the roof height is positive, then at most two extra parts. */
  lemma BuildingLayout(f: Feature, ref: Reference, geo: Geo)
    requires BuildingMesh(f, ref, geo).Ok? && BuildingMesh(f, ref, geo).value.Some?
    ensures var ms := BuildingMesh(f, ref, geo).value.value.meshes;
      var h := ResolveHeights(f.properties, geo.parseFloat);
      var roofCount := if Gt(h.roof, Fin(0.0)) then 1 else 0;
      1 + roofCount <= |ms| <= 3 + roofCount
      && ms[0].role == Walls && ms[0].geometry.body.Extrusion? && ms[0].geometry.body.depth == h.wall
      && (roofCount == 1 ==>
            ms[1].role == Roof && |ms[1].geometry.transforms| > 0
            && ms[1].geometry.transforms[|ms[1].geometry.transforms| - 1] == Translate(Fin(0.0), h.wall, Fin(0.0)))
      && (forall i :: 1 + roofCount <= i < |ms| ==> ms[i].role == Part || ms[i].role == Tower)
  {
    var rings := OuterAndHoles(f.geometry.value).value.value;
    var shape := BuildingShape(rings.0, rings.1, ref, geo).value;
    assert BuildingMesh(f, ref, geo).value.value.meshes
        == ShapeMeshes(f.properties, shape, ResolveHeights(f.properties, geo.parseFloat), FirstCoords(f.geometry.value), ref, geo).value;
  }

  /** A MultiPolygon builds what its first polygon alone builds, as long as
      no extra-part rule applies. */
  lemma MultiPolygonIsItsFirstPolygon(polygons: seq<seq<RingInput>>, props: Props, ref: Reference, geo: Geo)
    requires |polygons| > 0
    requires !IsTowerFeature(props) && !(HasTag(props, "building:part") && props["building:part"].Text?
                                          && Lower(props["building:part"].s) == "yes")
    ensures BuildingMesh(Feature(Some(MultiPolygon(polygons)), props), ref, geo)
         == BuildingMesh(Feature(Some(Polygon(polygons[0])), props), ref, geo)
  {
    var p := polygons[0];
    assert OuterAndHoles(MultiPolygon(polygons)) == OuterAndHoles(Polygon(p));
    assert ExtraParts(props, PolygonArg(p), ref, geo) == ExtraParts(props, FirstCoords(Polygon(p)), ref, geo);
    SameExtrasSameBuilding(Feature(Some(MultiPolygon(polygons)), props), Feature(Some(Polygon(p)), props), ref, geo);
  }

  /** Two features with the same tags and rings whose extra parts agree
      build alike. */
  lemma SameExtrasSameBuilding(f1: Feature, f2: Feature, ref: Reference, geo: Geo)
    requires f1.properties == f2.properties && f1.geometry.Some? && f2.geometry.Some?
    requires OuterAndHoles(f1.geometry.value) == OuterAndHoles(f2.geometry.value)
    requires ExtraParts(f1.properties, FirstCoords(f1.geometry.value), ref, geo)
          == ExtraParts(f2.properties, FirstCoords(f2.geometry.value), ref, geo)
    ensures BuildingMesh(f1, ref, geo) == BuildingMesh(f2, ref, geo)
  {
  }

  /** For a MultiPolygon of two-dimensional positions the extra parts see no
      shape: a bare part gets no thin wall, and a tower stays where
      CylinderGeometry puts it. */
  lemma MultiPolygonExtrasHaveNoShape(polygons: seq<seq<RingInput>>, props: Props, ref: Reference, geo: Geo)
    requires |polygons| > 0
    requires forall i :: 0 <= i < |polygons[0]| ==> polygons[0][i].Positions?
    requires forall i, j :: 0 <= i < |polygons[0]| && 0 <= j < |polygons[0][i].points| ==>
      |polygons[0][i].points[j]| >= 2
    requires ExtraParts(props, PolygonArg(polygons[0]), ref, geo).Ok?
    ensures var ms := ExtraParts(props, PolygonArg(polygons[0]), ref, geo).value;
      |ms| == (if IsTowerFeature(props) then 1 else 0)
      && (IsTowerFeature(props) ==> ms[0].geometry.transforms == [])
  {
    PolygonAsRingHasNoShape(polygons[0], ref, geo);
  }

  /** `props["tower:height"] || "10"` is 10 without a truthy tag, "10"
      parsing to 10. */
  lemma TowerHeightDefault(props: Props, parse: string -> Num)
    requires parse("10") == Fin(10.0) && !HasTag(props, "tower:height")
    ensures TowerHeight(props, parse) == Fin(10.0)
  {
    BareNumeralIsParsed("10", parse);
  }

  /** The default tower is a cylinder ten high, and a tower over a shape is
      lifted by half of that. */
  lemma DefaultTowerHeight(props: Props, shape: Option<Shape>, geo: Geo)
    requires geo.parseFloat("10") == Fin(10.0) && !HasTag(props, "tower:height")
    ensures TowerMesh(props, shape, geo).geometry.body == Cylinder(Fin(1.0), Fin(1.0), Fin(10.0), 16)
    ensures shape.Some? ==>
      var c := Centroid(geo.getPoints(shape.value));
      TowerMesh(props, shape, geo).geometry.transforms == [Translate(c.x, c.y, Fin(5.0))]
  {
    TowerHeightDefault(props, geo.parseFloat);
    assert Mul(Fin(10.0), Fin(0.5)) == Fin(5.0);
  }

  /** Without a truthy `roof:height` a building has no roof mesh, the empty
      string parsing to NaN. */
  lemma NoRoofTagMeansNoRoof(props: Props, shape: Shape, geo: Geo)
    requires geo.parseFloat("").NaN? && !HasTag(props, "roof:height")
    ensures RoofMesh(props, shape, ResolveHeights(props, geo.parseFloat), geo) == Ok(None)
  {
    NoRoofTagWallIsTotal(props, geo.parseFloat);
  }

  /** Without a truthy `roof:shape` a roof is the flat extrusion by the
      roof height, lifted by the wall height. */
  lemma DefaultRoofIsFlat(props: Props, shape: Shape, h: Heights, geo: Geo)
    requires !HasTag(props, "roof:shape") && Gt(h.roof, Fin(0.0))
    ensures RoofMesh(props, shape, h, geo)
         == Ok(Some(Mesh(Roof, Geometry(Extrusion(shape, h.roof), [TiltUp, HalfTurn, Translate(Fin(0.0), h.wall, Fin(0.0))]))))
  {
    LowerKeepsLowercase("flat");
    assert LowerTag(Text("flat")) == Ok("flat");
    var g := RoofGeometry(shape, h.roof, "flat", geo);
    assert g == Geometry(Extrusion(shape, h.roof), [TiltUp, HalfTurn]);
    assert g.transforms + [Translate(Fin(0.0), h.wall, Fin(0.0))] == [TiltUp, HalfTurn, Translate(Fin(0.0), h.wall, Fin(0.0))];
  }
}
