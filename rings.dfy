/** Ring handling of buildingFactory.js: toMeters, getShapeFromCoordinates
    with its pairing loop, and closePolygonIfNeeded. */
module Rings {
  import opened Js
  import opened Features

  // ---------------------------------------------------------------------
  // toMeters

  /** The reference as a `[lng, lat]` pair: an array of at least two
      elements, or an object whose `lng` and `lat` are both defined. Its
      values are not checked for finiteness. */
  function ReferenceCoord(ref: Reference): (r: Result<(Num, Num)>)
    ensures r.Ok? <==> (ref.RefArray? && |ref.items| >= 2) || (ref.RefObject? && ref.lng.Some? && ref.lat.Some?)
  {
    match ref
    case RefArray(items) => if |items| >= 2 then Ok((items[0], items[1])) else Err(InvalidReference)
    case RefObject(lng, lat) =>
      if lng.Some? && lat.Some? then Ok((lng.value, lat.value)) else Err(InvalidReference)
    case RefOther => Err(InvalidReference)
  }

  /** Projects a point into meters relative to the reference; the x axis is
      mirrored when flipX holds. A point that is not an array of at least two
      finite numbers, or a reference that cannot be read, is an error. */
  function ToMeters(point: Position, ref: Reference, flipX: bool, geo: Geo): (r: Result<Vec2>)
    ensures r.Ok? <==> |point| >= 2 && IsFinite(point[0]) && IsFinite(point[1]) && ReferenceCoord(ref).Ok?
    ensures r.Ok? ==>
      var d := geo.rhumb(point[0], point[1], ReferenceCoord(ref).value.0, ReferenceCoord(ref).value.1);
      r.value == Vec2(if flipX then Neg(d.x) else d.x, d.y)
  {
    if |point| < 2 then Err(InvalidCoordinateFormat)
    else
      var lng, lat := point[0], point[1];
      if !IsFinite(lng) || !IsFinite(lat) then Err(NonFiniteCoordinate)
      else
        var refCoord :- ReferenceCoord(ref);
        var d := geo.rhumb(lng, lat, refCoord.0, refCoord.1);
        Ok(Vec2(Mul(d.x, if flipX then Fin(-1.0) else Fin(1.0)), d.y))
  }

  // ---------------------------------------------------------------------
  // Pairing of flat rings

  /** `c[j]`, an index past the end reading `undefined`, which both isFinite
      and Number() turn into NaN. */
  function At(c: seq<Num>, j: nat): Num {
    if j < |c| then c[j] else NaN
  }

  /** The pairs `[c[i], c[i + 1]]` for every even i below |c|. */
  function Paired(c: seq<Num>): (r: seq<Position>)
    ensures |r| == (|c| + 1) / 2
  {
    seq((|c| + 1) / 2, k requires 0 <= k < (|c| + 1) / 2 => [c[2 * k], At(c, 2 * k + 1)])
  }

  function Flatten(ps: seq<Position>): seq<Num> {
    if ps == [] then [] else ps[0] + Flatten(ps[1..])
  }

  /** The first pair, then the pairs of the rest. */
  lemma PairedStep(c: seq<Num>)
    requires |c| >= 2
    ensures Paired(c) == [[c[0], c[1]]] + Paired(c[2..])
  {
    var rest := c[2..];
    forall k | 0 <= k < |Paired(rest)|
      ensures Paired(c)[k + 1] == Paired(rest)[k]
    {
      assert At(c, 2 * (k + 1) + 1) == At(rest, 2 * k + 1);
    }
  }

  lemma FlattenCons(p: Position, ps: seq<Position>)
    ensures Flatten([p] + ps) == p + Flatten(ps)
  {
    assert ([p] + ps)[1..] == ps;
  }

  /** Pairing loses nothing: flattening the pairs gives back the ring, with
      one trailing `undefined` (NaN) when its length is odd. */
  lemma {:induction false} PairedRoundTrip(c: seq<Num>)
    ensures Flatten(Paired(c)) == if |c| % 2 == 0 then c else c + [NaN]
  {
    if |c| == 0 {
    } else if |c| == 1 {
      assert Paired(c) == [[c[0], NaN]];
      assert Flatten(Paired(c)[1..]) == [];
    } else {
      var rest := c[2..];
      PairedRoundTrip(rest);
      PairedStep(c);
      FlattenCons([c[0], c[1]], Paired(rest));
      assert c == [c[0], c[1]] + rest;
    }
  }

  /** The loop of getShapeFromCoordinates that pairs a flat ring. */
  method PairFlatCoords(coords: seq<Num>) returns (paired: seq<Position>)
    ensures paired == Paired(coords)
  {
    paired := [];
    var i := 0;
    while i < |coords|
      invariant i % 2 == 0 && 0 <= i <= |coords| + 1
      invariant |paired| == i / 2
      invariant forall k :: 0 <= k < |paired| ==> paired[k] == [coords[2 * k], At(coords, 2 * k + 1)]
    {
      paired := paired + [[coords[i], At(coords, i + 1)]];
      i := i + 2;
    }
  }

  // ---------------------------------------------------------------------
  // getShapeFromCoordinates

  /** The value handed to getShapeFromCoordinates: `undefined`, a ring, or
      (for the extra parts of a MultiPolygon) a polygon's list of rings. */
  datatype ShapeArg = NoCoords | RingArg(ring: RingInput) | PolygonArg(rings: seq<RingInput>)

  /** Number() of a position array: "" for [], the element for [x], and a
      string with a comma (so NaN) for anything longer. */
  function PositionToNumber(p: Position): Num {
    if |p| == 0 then Fin(0.0) else if |p| == 1 then p[0] else NaN
  }

  /** A ring used where one point is expected: its elements as Number()
      sees them. */
  function RingAsPoint(r: RingInput): Position {
    match r
    case Flat(values) => values
    case Positions(points) => seq(|points|, k requires 0 <= k < |points| => PositionToNumber(points[k]))
  }

  /** The point arrays the filter and the projection see: a flat ring is
      paired first (which gives [] for an empty one, as skipping the pairing
      would); `undefined` makes `coords[0]` throw, which is caught. */
  function PointsOf(arg: ShapeArg): Option<seq<Position>> {
    match arg
    case NoCoords => None
    case RingArg(Flat(values)) => Some(Paired(values))
    case RingArg(Positions(points)) => Some(points)
    case PolygonArg(rings) => Some(seq(|rings|, k requires 0 <= k < |rings| => RingAsPoint(rings[k])))
  }

  /** The filter of getShapeFromCoordinates: an array of exactly two finite
      numbers. */
  predicate IsValidPair(p: Position) {
    |p| == 2 && IsFinite(p[0]) && IsFinite(p[1])
  }

  predicate HasValidPair(ps: seq<Position>) {
    exists i :: 0 <= i < |ps| && IsValidPair(ps[i])
  }

  /** `coords.map(toMeters)`: the first point that toMeters rejects throws. */
  function ProjectAll(ps: seq<Position>, ref: Reference, geo: Geo): (r: Result<seq<Vec2>>)
    ensures r.Ok? <==> forall i :: 0 <= i < |ps| ==> ToMeters(ps[i], ref, true, geo).Ok?
    ensures r.Ok? ==> (|r.value| == |ps| &&
      forall i :: 0 <= i < |ps| ==> r.value[i] == ToMeters(ps[i], ref, true, geo).value)
  {
    if ps == [] then Ok([])
    else
      var head :- ToMeters(ps[0], ref, true, geo);
      var tail :- ProjectAll(ps[1..], ref, geo);
      assert forall i :: 1 <= i < |ps| ==> ps[i] == ps[1..][i - 1];
      Ok([head] + tail)
  }

  /** A shape when some pair is valid and every point, valid or not, projects;
      "no shape" otherwise, any exception of toMeters being caught. */
  function GetShape(arg: ShapeArg, ref: Reference, geo: Geo): (r: Option<Shape>)
    ensures r.Some? <==>
      PointsOf(arg).Some? && HasValidPair(PointsOf(arg).value) &&
      forall i :: 0 <= i < |PointsOf(arg).value| ==> ToMeters(PointsOf(arg).value[i], ref, true, geo).Ok?
    ensures r.Some? ==> (r.value.holes == [] && |r.value.outline| == |PointsOf(arg).value| &&
      forall i :: 0 <= i < |r.value.outline| ==>
        r.value.outline[i] == ToMeters(PointsOf(arg).value[i], ref, true, geo).value)
  {
    match PointsOf(arg)
    case None => None
    case Some(ps) =>
      if !HasValidPair(ps) then None
      else match ProjectAll(ps, ref, geo)
        case Err(_) => None
        case Ok(points) => Some(Shape(points, []))
  }

  /** The extra parts of a MultiPolygon read `coordinates[0]`, a polygon, as
      if it were a ring: each of its rings of two-dimensional positions then
      counts as a point whose coordinates are NaN, so no shape comes out. */
  lemma PolygonAsRingHasNoShape(rings: seq<RingInput>, ref: Reference, geo: Geo)
    requires forall i :: 0 <= i < |rings| ==> rings[i].Positions?
    requires forall i, j :: 0 <= i < |rings| && 0 <= j < |rings[i].points| ==> |rings[i].points[j]| >= 2
    ensures GetShape(PolygonArg(rings), ref, geo) == None
  {
    var ps := PointsOf(PolygonArg(rings)).value;
    forall i | 0 <= i < |ps| ensures !IsValidPair(ps[i]) {
      assert ps[i] == RingAsPoint(rings[i]);
      if |ps[i]| == 2 {
        assert PositionToNumber(rings[i].points[0]) == NaN;
      }
    }
  }

  // ---------------------------------------------------------------------
  // closePolygonIfNeeded

  /** What `v[k]` reads from an element of a ring: `undefined`, a number, or
      an array. Distinct arrays of parsed JSON are distinct objects. */
  datatype Slot = Undefined | NumSlot(n: Num) | ArraySlot

  /** `a === b` on what two slots hold: two different array objects are
      never `===`. */
  predicate SlotEq(a: Slot, b: Slot) {
    match (a, b)
    case (Undefined, Undefined) => true
    case (NumSlot(x), NumSlot(y)) => StrictEq(x, y)
    case _ => false
  }

  function PositionSlot(p: Position, k: nat): Slot {
    if k < |p| then NumSlot(p[k]) else Undefined
  }

  function RingSlot(r: RingInput, k: nat): Slot {
    match r
    case Flat(values) => if k < |values| then NumSlot(values[k]) else Undefined
    case Positions(points) => if k < |points| then ArraySlot else Undefined
  }

  /** `first[0] !== last[0] || first[1] !== last[1]` for positions. */
  predicate PositionsDiffer(first: Position, last: Position) {
    !SlotEq(PositionSlot(first, 0), PositionSlot(last, 0))
    || !SlotEq(PositionSlot(first, 1), PositionSlot(last, 1))
  }

  /** The same test on the numbers of a flat ring: a number has no `[0]`, so
      both sides read `undefined` and never differ. */
  predicate NumbersDiffer(first: Num, last: Num) {
    !SlotEq(Undefined, Undefined)
  }

  /** The same test on two different rings of a polygon. */
  predicate RingsDiffer(first: RingInput, last: RingInput) {
    !SlotEq(RingSlot(first, 0), RingSlot(last, 0)) || !SlotEq(RingSlot(first, 1), RingSlot(last, 1))
  }

  /** closePolygonIfNeeded, over the elements of any ring and its test of
      whether the first and last elements differ. A missing ring or one of
      fewer than three elements gives "no ring". */
  function ClosePolygonIfNeeded<T>(coords: Option<seq<T>>, differs: (T, T) -> bool): (r: Option<seq<T>>)
    ensures r.Some? <==> coords.Some? && |coords.value| >= 3
    ensures r.Some? ==>
      var c := coords.value;
      r.value == (if differs(c[0], c[|c| - 1]) then c + [c[0]] else c)
  {
    match coords
    case None => None
    case Some(c) =>
      if |c| < 3 then None
      else if differs(c[0], c[|c| - 1]) then Some(c + [c[0]])
      else Some(c)
  }

  /** The closed ring starts as before, and its last element equals its first
      or does not differ from it. */
  lemma ClosedRingEndsAtStart<T>(coords: seq<T>, differs: (T, T) -> bool)
    requires |coords| >= 3
    ensures var r := ClosePolygonIfNeeded(Some(coords), differs).value;
      r[..|coords|] == coords && r[0] == coords[0] &&
      (r[|r| - 1] == r[0] || !differs(r[0], r[|r| - 1]))
  {
  }

  /** Closing twice closes once, provided the first element does not differ
      from itself. */
  lemma {:induction false} CloseIsIdempotent<T>(coords: Option<seq<T>>, differs: (T, T) -> bool)
    requires coords.Some? && coords.value != [] ==> !differs(coords.value[0], coords.value[0])
    ensures ClosePolygonIfNeeded(ClosePolygonIfNeeded(coords, differs), differs)
         == ClosePolygonIfNeeded(coords, differs)
  {
    var once := ClosePolygonIfNeeded(coords, differs);
    if once.Some? {
      var c, r := coords.value, once.value;
      assert r[0] == c[0];
      if differs(c[0], c[|c| - 1]) {
        assert r[|r| - 1] == c[0];
      } else {
        assert r == c;
      }
    }
  }

  /** A position ring: closing twice closes once unless the first position's
      longitude or latitude is NaN, which `!==` never equates. */
  lemma PositionCloseIsIdempotent(points: seq<Position>)
    requires points != [] ==> forall k :: 0 <= k < 2 && k < |points[0]| ==> !points[0][k].NaN?
    ensures ClosePolygonIfNeeded(ClosePolygonIfNeeded(Some(points), PositionsDiffer), PositionsDiffer)
         == ClosePolygonIfNeeded(Some(points), PositionsDiffer)
  {
    CloseIsIdempotent(Some(points), PositionsDiffer);
  }

  /** With a NaN longitude the first and last positions always differ, so a
      second closing appends the first position once more. */
  lemma NaNPositionClosesAgain(points: seq<Position>)
    requires |points| >= 3 && |points[0]| >= 2 && points[0][0].NaN?
    ensures var once := ClosePolygonIfNeeded(Some(points), PositionsDiffer).value;
      ClosePolygonIfNeeded(Some(once), PositionsDiffer).value == once + [points[0]]
  {
  }
}
