/** The scene level of buildingFactory.js: the partition of the features
    into whole buildings and parts, containsAnyPart, and
    generateEnhancedBuildings. */
module Scene {
  import opened Js
  import opened Features
  import opened Rings
  import opened Heights
  import opened Assembly

  // ---------------------------------------------------------------------
  // Partition

  /** `props.building && !props["building:part"]`. */
  predicate IsWhole(f: Feature) {
    HasTag(f.properties, "building") && !HasTag(f.properties, "building:part")
  }

  /** `props["building:part"]`, tested only when the feature is not whole. */
  predicate IsPartFeature(f: Feature) {
    IsPart(f.properties)
  }

  /** The whole buildings, in input order. */
  function Wholes(fs: seq<Feature>): seq<Feature> {
    if fs == [] then [] else Wholes(fs[..|fs| - 1]) + (if IsWhole(fs[|fs| - 1]) then [fs[|fs| - 1]] else [])
  }

  /** The parts, in input order. */
  function Parts(fs: seq<Feature>): seq<Feature> {
    if fs == [] then []
    else Parts(fs[..|fs| - 1]) + (if IsPartFeature(fs[|fs| - 1]) then [fs[|fs| - 1]] else [])
  }

  /** The partition loop: each feature is pushed onto the buildings, onto the
      parts, or onto neither. */
  method Partition(features: seq<Feature>) returns (buildings: seq<Feature>, parts: seq<Feature>)
    ensures buildings == Wholes(features) && parts == Parts(features)
  {
    buildings, parts := [], [];
    for i := 0 to |features|
      invariant buildings == Wholes(features[..i]) && parts == Parts(features[..i])
    {
      assert features[..i + 1][..i] == features[..i];
      var f := features[i];
      if HasTag(f.properties, "building") && !HasTag(f.properties, "building:part") {
        buildings := buildings + [f];
      } else if HasTag(f.properties, "building:part") {
        parts := parts + [f];
      }
    }
    assert features[..|features|] == features;
  }

  /** A feature is a whole building exactly when it has `building` and no
      truthy `building:part`, a part exactly when it has a truthy
      `building:part`, and every other feature is dropped; nothing is both. */
  lemma {:induction false} PartitionMembers(fs: seq<Feature>, f: Feature)
    ensures f in Wholes(fs) <==> f in fs && IsWhole(f)
    ensures f in Parts(fs) <==> f in fs && IsPartFeature(f)
    ensures !(f in Wholes(fs) && f in Parts(fs))
  {
    if fs != [] {
      var init := fs[..|fs| - 1];
      PartitionMembers(init, f);
      assert fs == init + [fs[|fs| - 1]];
    }
  }

  /** Every feature goes to at most one list. */
  lemma {:induction false} PartitionCounts(fs: seq<Feature>)
    ensures |Wholes(fs)| + |Parts(fs)| <= |fs|
    ensures (forall i :: 0 <= i < |fs| ==> IsWhole(fs[i]) || IsPartFeature(fs[i]))
        ==> |Wholes(fs)| + |Parts(fs)| == |fs|
  {
    if fs != [] {
      var init := fs[..|fs| - 1];
      PartitionCounts(init);
      assert forall i :: 0 <= i < |init| ==> init[i] == fs[i];
    }
  }

  // ---------------------------------------------------------------------
  // containsAnyPart

  /** closePolygonIfNeeded on one ring of the input, as the ring handed to
      turf.polygon: none below three elements; a flat ring is never
      extended, since its numbers have no `[0]` to compare. */
  function CloseRingInput(ring: RingInput): (r: Option<TurfRing>)
    ensures ring.Flat? ==>
      (r.Some? <==> |ring.values| >= 3) && (r.Some? ==> r.value == FlatRing(ring.values))
    ensures ring.Positions? ==>
      (r.Some? <==> |ring.points| >= 3)
      && (r.Some? ==> r.value == PositionRing(ClosePolygonIfNeeded(Some(ring.points), PositionsDiffer).value))
  {
    match ring
    case Flat(values) =>
      var closed := ClosePolygonIfNeeded(Some(values), NumbersDiffer);
      if closed.None? then None else Some(FlatRing(closed.value))
    case Positions(points) =>
      var closed := ClosePolygonIfNeeded(Some(points), PositionsDiffer);
      if closed.None? then None else Some(PositionRing(closed.value))
  }

  /** `closePolygonIfNeeded(geometry.coordinates[0])` as the single ring
      handed to turf.polygon: a Polygon's outer ring, a MultiPolygon's whole
      first polygon, a MultiLineString's first line, or a LineString's first
      position read as a ring of numbers; "no ring" when there is none. A
      GeometryCollection has no `coordinates` to index, and a Point with a
      truthy longitude gets past the `!coords` test and then reads `[0]` of
      `undefined`: both throw a TypeError. */
  function ClosedRing(g: FeatureGeometry): (r: Result<Option<TurfRing>>)
    ensures r.Err? <==> g.OtherGeometry? && (g.first.NoCoordinates? || (g.first.FirstNumber? && Truthy(g.first.n)))
    ensures r.Err? ==> r.error == ReadOfUndefined
    ensures g.Polygon? && |g.rings| > 0 ==> r == Ok(CloseRingInput(g.rings[0]))
    ensures (g.Polygon? && |g.rings| == 0) || (g.MultiPolygon? && |g.polygons| == 0) ==> r == Ok(None)
    ensures g.MultiPolygon? && |g.polygons| > 0 ==>
      (r.value.Some? <==> |g.polygons[0]| >= 3) && (r.value.Some? ==> r.value.value.RingOfRings?)
    ensures g.MultiPolygon? && |g.polygons| > 0 && |g.polygons[0]| >= 3 ==>
      r == Ok(Some(RingOfRings(ClosePolygonIfNeeded(Some(g.polygons[0]), RingsDiffer).value)))
    ensures g.MultiPolygon? && |g.polygons| > 0 && |g.polygons[0]| >= 3
            && g.polygons[0][0].Positions? && |g.polygons[0][0].points| > 0 ==>
      r == Ok(Some(RingOfRings(g.polygons[0] + [g.polygons[0][0]])))
    ensures g.OtherGeometry? && g.first.FirstNumber? && !Truthy(g.first.n) ==> r == Ok(None)
    ensures g.OtherGeometry? && g.first.FirstPosition? ==> r == Ok(CloseRingInput(Flat(g.first.p)))
    ensures g.OtherGeometry? && g.first.FirstLine? ==> r == Ok(CloseRingInput(Positions(g.first.points)))
  {
    match g
    case Polygon(rings) =>
      if |rings| == 0 then Ok(None) else Ok(CloseRingInput(rings[0]))
    case MultiPolygon(polygons) =>
      if |polygons| == 0 then Ok(None)
      else
        var closed := ClosePolygonIfNeeded(Some(polygons[0]), RingsDiffer);
        Ok(if closed.None? then None else Some(RingOfRings(closed.value)))
    case OtherGeometry(_, first) =>
      match first
      case NoCoordinates => Err(ReadOfUndefined)
      case FirstNumber(n) => if Truthy(n) then Err(ReadOfUndefined) else Ok(None)
      case FirstPosition(p) => Ok(CloseRingInput(Flat(p)))
      case FirstLine(points) => Ok(CloseRingInput(Positions(points)))
  }

  /** The ring of a feature, "no ring" for a null geometry. */
  function FeatureRing(f: Feature): Result<Option<TurfRing>> {
    if f.geometry.None? then Ok(None) else ClosedRing(f.geometry.value)
  }

  /** The loop of containsAnyPart over the remaining parts: a part without a
      ring is skipped, reading the ring of a part may throw, a ring that
      turf.polygon rejects throws, and the first contained part ends the
      loop. */
  function AnyContained(outer: TurfRing, parts: seq<Feature>, geo: Geo): Result<bool> {
    if parts == [] then Ok(false)
    else
      var ring :- FeatureRing(parts[0]);
      match ring
      case None => AnyContained(outer, parts[1..], geo)
      case Some(inner) =>
        if !geo.polygonAccepts(inner) then Err(RingRejected)
        else if geo.booleanContains(outer, inner) then Ok(true)
        else AnyContained(outer, parts[1..], geo)
  }

  /** containsAnyPart: false for a building without geometry, for an empty
      parts list and for a building without a ring; reading the building's
      ring may throw, and a building ring that turf.polygon rejects throws. */
  function ContainsAnyPartSpec(building: Feature, parts: seq<Feature>, geo: Geo): (r: Result<bool>)
    ensures building.geometry.None? || parts == [] ==> r == Ok(false)
    ensures building.geometry.Some? && parts != [] && ClosedRing(building.geometry.value).Err? ==>
      r == Err(ReadOfUndefined)
    ensures building.geometry.Some? && ClosedRing(building.geometry.value) == Ok(None) ==> r == Ok(false)
    ensures (building.geometry.Some? && parts != [] && ClosedRing(building.geometry.value).Ok?
             && ClosedRing(building.geometry.value).value.Some?
             && !geo.polygonAccepts(ClosedRing(building.geometry.value).value.value)) ==> r == Err(RingRejected)
    ensures (building.geometry.Some? && parts != [] && ClosedRing(building.geometry.value).Ok?
             && ClosedRing(building.geometry.value).value.Some?
             && geo.polygonAccepts(ClosedRing(building.geometry.value).value.value)) ==>
      r == AnyContained(ClosedRing(building.geometry.value).value.value, parts, geo)
  {
    if building.geometry.None? || |parts| == 0 then Ok(false)
    else
      var ring :- ClosedRing(building.geometry.value);
      match ring
      case None => Ok(false)
      case Some(outer) =>
        if !geo.polygonAccepts(outer) then Err(RingRejected)
        else AnyContained(outer, parts, geo)
  }

  /** The loop with its early returns. */
  method ContainsAnyPart(building: Feature, parts: seq<Feature>, geo: Geo) returns (r: Result<bool>)
    ensures r == ContainsAnyPartSpec(building, parts, geo)
  {
    if building.geometry.None? || |parts| == 0 {
      return Ok(false);
    }
    var buildingRing := ClosedRing(building.geometry.value);
    if buildingRing.Err? {
      return Err(buildingRing.error);
    }
    if buildingRing.value.None? {
      return Ok(false);
    }
    var outer := buildingRing.value.value;
    if !geo.polygonAccepts(outer) {
      return Err(RingRejected);
    }
    for i := 0 to |parts|
      invariant AnyContained(outer, parts[i..], geo) == AnyContained(outer, parts, geo)
    {
      assert parts[i..][1..] == parts[i + 1..];
      var part := parts[i];
      if part.geometry.None? {
        continue;
      }
      var partRing := ClosedRing(part.geometry.value);
      if partRing.Err? {
        return Err(partRing.error);
      }
      if partRing.value.None? {
        continue;
      }
      if !geo.polygonAccepts(partRing.value.value) {
        return Err(RingRejected);
      }
      if geo.booleanContains(outer, partRing.value.value) {
        return Ok(true);
      }
    }
    return Ok(false);
  }

  /** When every part ring can be read and turf.polygon accepts it, the
      loop answers whether some part ring lies inside the building ring. */
  lemma {:induction false} AnyContainedIff(outer: TurfRing, parts: seq<Feature>, geo: Geo)
    requires forall i :: 0 <= i < |parts| ==> FeatureRing(parts[i]).Ok?
    requires forall i :: 0 <= i < |parts| && FeatureRing(parts[i]).value.Some? ==>
      geo.polygonAccepts(FeatureRing(parts[i]).value.value)
    ensures AnyContained(outer, parts, geo).Ok?
    ensures AnyContained(outer, parts, geo).value <==>
      exists i :: 0 <= i < |parts| && FeatureRing(parts[i]).value.Some?
                  && geo.booleanContains(outer, FeatureRing(parts[i]).value.value)
  {
    if parts != [] {
      assert forall i :: 1 <= i < |parts| ==> parts[i] == parts[1..][i - 1];
      AnyContainedIff(outer, parts[1..], geo);
      var first := FeatureRing(parts[0]).value;
      if first.Some? && geo.booleanContains(outer, first.value) {
        assert FeatureRing(parts[0]).value.Some? && geo.booleanContains(outer, FeatureRing(parts[0]).value.value);
      }
    }
  }

  /** Reading the part's ring throws, or turf.polygon rejects it. */
  predicate RingFails(f: Feature, geo: Geo) {
    FeatureRing(f).Err? || (FeatureRing(f).value.Some? && !geo.polygonAccepts(FeatureRing(f).value.value))
  }

  /** The loop throws only at a part whose ring cannot be read or is
      rejected by turf.polygon. */
  lemma {:induction false} AnyContainedFails(outer: TurfRing, parts: seq<Feature>, geo: Geo)
    requires AnyContained(outer, parts, geo).Err?
    ensures AnyContained(outer, parts, geo).error == RingRejected
         || AnyContained(outer, parts, geo).error == ReadOfUndefined
    ensures exists i :: 0 <= i < |parts| && RingFails(parts[i], geo)
  {
    if RingFails(parts[0], geo) {
      assert 0 < |parts|;
    } else {
      AnyContainedFails(outer, parts[1..], geo);
      var i :| 0 <= i < |parts[1..]| && RingFails(parts[1..][i], geo);
      assert parts[1..][i] == parts[i + 1];
    }
  }

  // ---------------------------------------------------------------------
  // generateEnhancedBuildings

  /** `buildingFeatures.filter(b => !containsAnyPart(b, parts))`. */
  function Survivors(buildings: seq<Feature>, parts: seq<Feature>, geo: Geo): Result<seq<Feature>> {
    if buildings == [] then Ok([])
    else
      var kept :- Survivors(buildings[..|buildings| - 1], parts, geo);
      var last := buildings[|buildings| - 1];
      var contains :- ContainsAnyPartSpec(last, parts, geo);
      Ok(kept + (if contains then [] else [last]))
  }

  /** generateEnhancedBuildingMesh for one reference point and one set of
      geometry collaborators. */
  function MeshBuilder(ref: Reference, geo: Geo): Feature -> Result<Option<Building>> {
    f => BuildingMesh(f, ref, geo)
  }

  /** `toRender.map(build).filter(Boolean)`. */
  function BuildAll(fs: seq<Feature>, build: Feature -> Result<Option<Building>>): Result<seq<Building>> {
    if fs == [] then Ok([])
    else
      var built :- BuildAll(fs[..|fs| - 1], build);
      var b :- build(fs[|fs| - 1]);
      Ok(built + (match b case Some(x) => [x] case None => []))
  }

  /** generateEnhancedBuildings: the buildings of the surviving whole
      buildings followed by those of all parts. */
  function EnhancedBuildings(features: seq<Feature>, ref: Reference, geo: Geo): Result<seq<Building>> {
    var wholes := Wholes(features);
    var parts := Parts(features);
    var valid :- Survivors(wholes, parts, geo);
    BuildAll(valid + parts, MeshBuilder(ref, geo))
  }

  lemma {:induction false} SurvivorsErrPersists(buildings: seq<Feature>, k: nat, parts: seq<Feature>, geo: Geo)
    requires k <= |buildings| && Survivors(buildings[..k], parts, geo).Err?
    ensures Survivors(buildings, parts, geo).Err?
    ensures Survivors(buildings, parts, geo).error == Survivors(buildings[..k], parts, geo).error
    decreases |buildings| - k
  {
    if k < |buildings| {
      assert buildings[..k + 1][..k] == buildings[..k];
      SurvivorsErrPersists(buildings, k + 1, parts, geo);
    } else {
      assert buildings[..k] == buildings;
    }
  }

  lemma {:induction false} BuildAllErrPersists(fs: seq<Feature>, k: nat, build: Feature -> Result<Option<Building>>)
    requires k <= |fs| && BuildAll(fs[..k], build).Err?
    ensures BuildAll(fs, build).Err?
    ensures BuildAll(fs, build).error == BuildAll(fs[..k], build).error
    decreases |fs| - k
  {
    if k < |fs| {
      assert fs[..k + 1][..k] == fs[..k];
      BuildAllErrPersists(fs, k + 1, build);
    } else {
      assert fs[..k] == fs;
    }
  }

  /** The filter loop over the whole buildings; the first exception of
      containsAnyPart escapes. */
  method FilterSurvivors(buildings: seq<Feature>, parts: seq<Feature>, geo: Geo) returns (r: Result<seq<Feature>>)
    ensures r == Survivors(buildings, parts, geo)
  {
    var valid: seq<Feature> := [];
    for i := 0 to |buildings|
      invariant Survivors(buildings[..i], parts, geo) == Ok(valid)
    {
      assert buildings[..i + 1][..i] == buildings[..i];
      assert buildings[..i + 1][i] == buildings[i];
      var contains := ContainsAnyPart(buildings[i], parts, geo);
      if contains.Err? {
        SurvivorsErrPersists(buildings, i + 1, parts, geo);
        return Err(contains.error);
      }
      assert valid + [] == valid;
      if !contains.value {
        valid := valid + [buildings[i]];
      }
    }
    assert buildings[..|buildings|] == buildings;
    return Ok(valid);
  }

  /** The map through generateEnhancedBuildingMesh and the filter of the
      null results; the first exception escapes. */
  method BuildEach(fs: seq<Feature>, build: Feature -> Result<Option<Building>>) returns (r: Result<seq<Building>>)
    ensures r == BuildAll(fs, build)
  {
    var meshes: seq<Building> := [];
    for i := 0 to |fs|
      invariant BuildAll(fs[..i], build) == Ok(meshes)
    {
      assert fs[..i + 1][..i] == fs[..i];
      assert fs[..i + 1][i] == fs[i];
      var b := build(fs[i]);
      if b.Err? {
        BuildAllErrPersists(fs, i + 1, build);
        return Err(b.error);
      }
      assert meshes + [] == meshes;
      if b.value.Some? {
        meshes := meshes + [b.value.value];
      }
    }
    assert fs[..|fs|] == fs;
    return Ok(meshes);
  }

  /** generateEnhancedBuildings: partition, filter, then build the survivors
      followed by the parts. */
  method GenerateEnhancedBuildings(features: seq<Feature>, ref: Reference, geo: Geo) returns (r: Result<seq<Building>>)
    ensures r == EnhancedBuildings(features, ref, geo)
  {
    var buildings, parts := Partition(features);
    var valid := FilterSurvivors(buildings, parts, geo);
    if valid.Err? {
      return Err(valid.error);
    }
    r := BuildEach(valid.value + parts, MeshBuilder(ref, geo));
  }

  // ---------------------------------------------------------------------
  // Properties

  /** A whole building survives exactly when containsAnyPart answers false
      for it; the survivors keep their input order. */
  lemma {:induction false} SurvivorMembers(buildings: seq<Feature>, parts: seq<Feature>, geo: Geo, f: Feature)
    requires Survivors(buildings, parts, geo).Ok?
    ensures f in Survivors(buildings, parts, geo).value <==> f in buildings && ContainsAnyPartSpec(f, parts, geo) == Ok(false)
    ensures |Survivors(buildings, parts, geo).value| <= |buildings|
  {
    if buildings != [] {
      var init := buildings[..|buildings| - 1];
      SurvivorMembers(init, parts, geo, f);
      assert buildings == init + [buildings[|buildings| - 1]];
    }
  }

  /** With no parts nothing is deduplicated. */
  lemma {:induction false} NoPartsKeepsAll(buildings: seq<Feature>, geo: Geo)
    ensures Survivors(buildings, [], geo) == Ok(buildings)
  {
    if buildings != [] {
      var init, last := buildings[..|buildings| - 1], buildings[|buildings| - 1];
      assert Survivors(buildings, [], geo) == Ok(init + [last]) by {
        NoPartsKeepsAll(init, geo);
        assert ContainsAnyPartSpec(last, [], geo) == Ok(false);
      }
      assert init + [last] == buildings;
    }
  }

  /** Building a concatenation builds the first list, then the second. */
  lemma {:induction false} BuildAllAppend(a: seq<Feature>, b: seq<Feature>, build: Feature -> Result<Option<Building>>)
    requires BuildAll(a + b, build).Ok?
    ensures BuildAll(a, build).Ok? && BuildAll(b, build).Ok?
    ensures BuildAll(a + b, build).value == BuildAll(a, build).value + BuildAll(b, build).value
    decreases |b|
  {
    if b == [] {
      assert a + b == a;
    } else {
      var init := b[..|b| - 1];
      assert (a + b)[..|a + b| - 1] == a + init;
      assert (a + b)[|a + b| - 1] == b[|b| - 1];
      BuildAllAppend(a, init, build);
    }
  }

  /** Every built feature yields one building, and no feature more than one. */
  lemma {:induction false} BuildAllCount(fs: seq<Feature>, ref: Reference, geo: Geo)
    requires BuildAll(fs, MeshBuilder(ref, geo)).Ok?
    ensures |BuildAll(fs, MeshBuilder(ref, geo)).value| <= |fs|
    ensures forall k :: 0 <= k < |BuildAll(fs, MeshBuilder(ref, geo)).value| ==>
      |BuildAll(fs, MeshBuilder(ref, geo)).value[k].meshes| >= 1
  {
    if fs != [] {
      var init := fs[..|fs| - 1];
      BuildAllCount(init, ref, geo);
      var b := BuildingMesh(fs[|fs| - 1], ref, geo);
      if b.value.Some? {
        BuildingLayout(fs[|fs| - 1], ref, geo);
      }
    }
  }

  /** The render order: the buildings of the surviving whole buildings, in
      input order, then the buildings of all parts, in input order. */
  lemma RenderOrder(features: seq<Feature>, ref: Reference, geo: Geo)
    requires EnhancedBuildings(features, ref, geo).Ok?
    ensures var valid := Survivors(Wholes(features), Parts(features), geo);
      var build := MeshBuilder(ref, geo);
      valid.Ok? && BuildAll(valid.value, build).Ok? && BuildAll(Parts(features), build).Ok?
      && EnhancedBuildings(features, ref, geo).value
         == BuildAll(valid.value, build).value + BuildAll(Parts(features), build).value
  {
    var valid := Survivors(Wholes(features), Parts(features), geo).value;
    BuildAllAppend(valid, Parts(features), MeshBuilder(ref, geo));
  }

  /** Without any part every whole building is rendered, in input order. */
  lemma WithoutPartsAllWholesRender(features: seq<Feature>, ref: Reference, geo: Geo)
    requires Parts(features) == []
    ensures EnhancedBuildings(features, ref, geo) == BuildAll(Wholes(features), MeshBuilder(ref, geo))
  {
    NoPartsKeepsAll(Wholes(features), geo);
    assert Wholes(features) + [] == Wholes(features);
  }

  /** A whole building whose ring cannot be read (a GeometryCollection, or
      a Point with a truthy longitude) makes the whole scene throw as soon
      as there is a part to compare it with. */
  lemma {:induction false} UnreadableBuildingRingThrows(features: seq<Feature>, k: nat, ref: Reference, geo: Geo)
    requires k < |Wholes(features)| && Parts(features) != []
    requires Wholes(features)[k].geometry.Some? && ClosedRing(Wholes(features)[k].geometry.value).Err?
    ensures EnhancedBuildings(features, ref, geo).Err?
  {
    var wholes := Wholes(features);
    var parts := Parts(features);
    var prefix := wholes[..k + 1];
    assert prefix[..|prefix| - 1] == wholes[..k] && prefix[|prefix| - 1] == wholes[k];
    assert ContainsAnyPartSpec(wholes[k], parts, geo).Err?;
    assert Survivors(prefix, parts, geo).Err?;
    SurvivorsErrPersists(wholes, k + 1, parts, geo);
  }
}
