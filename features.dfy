/** The data the building factory consumes and produces: GeoJSON features
    with their tags, the reference point, planar shapes, the geometries and
    meshes handed to three.js, and the library calls the factory makes,
    which are left uninterpreted. */
module Features {
  import opened Js

  /** A GeoJSON position, each component being its Number() value. */
  type Position = seq<Num>

  /** A coordinate ring: either flat alternating numbers or an array of
      positions. */
  datatype RingInput = Flat(values: seq<Num>) | Positions(points: seq<Position>)

  /** What `geometry.coordinates[0]` is for the other GeoJSON geometry
      types: nothing to index (a GeometryCollection has no `coordinates`),
      a number (a Point's longitude), a position (the first point of a
      LineString or MultiPoint) or a line of positions (the first line of a
      MultiLineString). */
  datatype FirstCoordinate =
    | NoCoordinates
    | FirstNumber(n: Num)
    | FirstPosition(p: Position)
    | FirstLine(points: seq<Position>)

  /** The `geometry` of a feature. Any type other than Polygon and
      MultiPolygon is known by its name and by its first coordinate, the
      only part of it the core reads. */
  datatype FeatureGeometry =
    | Polygon(rings: seq<RingInput>)
    | MultiPolygon(polygons: seq<seq<RingInput>>)
    | OtherGeometry(kind: string, first: FirstCoordinate)

  /** A tag value: osmtogeojson yields strings, hand-written input may hold
      numbers. A key that is absent from the map is `undefined`. */
  datatype TagValue = Text(s: string) | Number(n: Num)

  type Props = map<string, TagValue>

  /** `geometry` is None when the feature has a null geometry. */
  datatype Feature = Feature(geometry: Option<FeatureGeometry>, properties: Props)

  /** The reference point: an array `[lng, lat]`, an object `{lng, lat}`
      (a missing field is None) or any other value. */
  datatype Reference = RefArray(items: seq<Num>) | RefObject(lng: Option<Num>, lat: Option<Num>) | RefOther

  datatype Vec2 = Vec2(x: Num, y: Num)
  datatype Vec3 = Vec3(x: Num, y: Num, z: Num)

  /** A THREE.Shape: its outline points and the outlines of its holes. */
  datatype Shape = Shape(outline: seq<Vec2>, holes: seq<seq<Vec2>>)

  /** What a geometry was built from. Extrusions are ExtrudeGeometry with
      bevel off and one curve segment; a fan is a BufferGeometry with a
      position attribute, an index and computed normals; a cylinder is
      CylinderGeometry(radiusTop, radiusBottom, height, radialSegments). */
  datatype Body =
    | Extrusion(shape: Shape, depth: Num)
    | Fan(positions: seq<Num>, indices: seq<nat>)
    | Cylinder(radiusTop: Num, radiusBottom: Num, height: Num, radialSegments: nat)

  /** The in-place transforms applied to a geometry, in order:
      rotateX(-PI/2), rotateY(PI) and translate(dx, dy, dz). */
  datatype Transform = TiltUp | HalfTurn | Translate(dx: Num, dy: Num, dz: Num)

  datatype Geometry = Geometry(body: Body, transforms: seq<Transform>)

  /** The mesh names "BuildingWalls", "BuildingRoof", "BuildingPart" and
      "BuildingTower". */
  datatype Role = Walls | Roof | Part | Tower

  datatype Mesh = Mesh(role: Role, geometry: Geometry)

  /** The THREE.Group made for one feature. */
  datatype Building = Building(meshes: seq<Mesh>)

  /** The value handed to turf.polygon as the single ring: a closed flat ring,
      a closed ring of positions, or a polygon's list of rings (what a
      MultiPolygon's `coordinates[0]` is). */
  datatype TurfRing = FlatRing(values: seq<Num>) | PositionRing(points: seq<Position>) | RingOfRings(rings: seq<RingInput>)

  /** The library calls, uninterpreted:
      - parseFloat;
      - the rhumb projection: (distance * cos(bearing), distance * sin(bearing))
        in meters from (lng, lat) to the reference, before the x flip;
      - Shape.getPoints(20);
      - whether turf.polygon accepts a ring (it throws otherwise);
      - turf.booleanContains(outer, inner) on two accepted rings;
      - the position count of a geometry after toNonIndexed. */
  datatype Geo = Geo(
    parseFloat: string -> Num,
    rhumb: (Num, Num, Num, Num) -> Vec2,
    getPoints: Shape -> seq<Vec2>,
    polygonAccepts: TurfRing -> bool,
    booleanContains: (TurfRing, TurfRing) -> bool,
    flatVertexCount: Geometry -> nat)

  /** The exceptions the core can raise. */
  datatype Error =
    | InvalidCoordinateFormat     // toMeters: not an array of enough elements
    | NonFiniteCoordinate         // toMeters: a component is not finite
    | InvalidReference            // toMeters: the reference cannot be read
    | LowerCaseOfNumber           // toLowerCase called on a numeric tag
    | NullGeometry                // geometry.coordinates read on a null geometry
    | NoFirstPolygon              // coordinates[0][0] on an empty MultiPolygon
    | RingRejected                // turf.polygon threw on a ring
    | ReadOfUndefined             // a property read on `undefined` (a TypeError)

  datatype Result<T> = Ok(value: T) | Err(error: Error) {
    predicate IsFailure() { Err? }
    function PropagateFailure<U>(): Result<U> requires Err? { Err(error) }
    function Extract(): T requires Ok? { value }
  }

  /** `props[key]`, None standing for `undefined`. */
  function Tag(props: Props, key: string): Option<TagValue> {
    if key in props then Some(props[key]) else None
  }

  predicate TruthyValue(v: TagValue) {
    match v
    case Text(s) => s != []
    case Number(n) => Truthy(n)
  }

  /** `!!props[key]`. */
  predicate HasTag(props: Props, key: string) {
    key in props && TruthyValue(props[key])
  }

  /** `props[key] === "<text>"`. */
  predicate TagIs(props: Props, key: string, text: string) {
    key in props && props[key] == Text(text)
  }
}
