/** The sequence logic of utils.js: the argument checks of fetchData, the
    ring closing of clipData and the strict toMeters. */
module Utils {
  import opened Js
  import opened Features
  import Rings

  // ---------------------------------------------------------------------
  // fetchData

  /** A Leaflet point. */
  datatype LatLng = LatLng(lat: Num, lng: Num)

  /** `latlngs.center`, whose fields may be missing. */
  datatype Center = Center(lat: Option<Num>, lng: Option<Num>)

  /** The drawn area handed to fetchData and clipData: nothing, an array of
      points (a polygon), or any other object, of which only `center` and
      `radius` are read (a drawn circle has both). */
  datatype Area =
    | NoArea
    | PolygonArea(points: seq<LatLng>)
    | ObjectArea(center: Option<Center>, radius: Option<Num>)

  /** `!!field` for an optional number. */
  predicate TruthyField(n: Option<Num>) {
    n.Some? && Truthy(n.value)
  }

  /** `latlngs.center && latlngs.radius`. */
  predicate IsCircle(a: Area) {
    a.ObjectArea? && a.center.Some? && TruthyField(a.radius)
  }

  /** How fetchData treats its argument: it returns before any request for
      a missing area, for a circle whose centre lacks a truthy lat or lng,
      and for anything else that is not a non-empty array. */
  datatype FetchInput = MissingArea | CenterIncomplete | NotAPolygon | CircleInput(center: Center, radius: Num) | PolygonInput(points: seq<LatLng>)

  function ValidateFetchInput(a: Area): FetchInput {
    if a.NoArea? then MissingArea
    else if IsCircle(a) then
      if !TruthyField(a.center.value.lat) || !TruthyField(a.center.value.lng) then CenterIncomplete
      else CircleInput(a.center.value, a.radius.value)
    else if !a.PolygonArea? || |a.points| == 0 then NotAPolygon
    else PolygonInput(a.points)
  }

  predicate Proceeds(v: FetchInput) {
    v.CircleInput? || v.PolygonInput?
  }

  /** fetchData goes on to a request exactly for a circle with a truthy
      radius and a centre with truthy lat and lng, or for a non-empty array
      of points; the branch it takes carries the input unchanged. */
  lemma FetchDataProceedsIff(a: Area)
    ensures Proceeds(ValidateFetchInput(a)) <==>
      (IsCircle(a) && TruthyField(a.center.value.lat) && TruthyField(a.center.value.lng))
      || (a.PolygonArea? && |a.points| > 0)
    ensures ValidateFetchInput(a).CircleInput? ==>
      ValidateFetchInput(a) == CircleInput(a.center.value, a.radius.value)
    ensures ValidateFetchInput(a).PolygonInput? ==> ValidateFetchInput(a) == PolygonInput(a.points)
  {
  }

  /** A circle centred on the equator or on the prime meridian is rejected,
      since 0 is falsy; a circle with a radius of 0 is no circle, and being
      no array it is rejected too. */
  lemma ZeroCoordinatesAreRejected(lat: Num, lng: Num, radius: Num)
    ensures Truthy(radius) && (lat == Fin(0.0) || lng == Fin(0.0)) ==>
      ValidateFetchInput(ObjectArea(Some(Center(Some(lat), Some(lng))), Some(radius))) == CenterIncomplete
    ensures ValidateFetchInput(ObjectArea(Some(Center(Some(lat), Some(lng))), Some(Fin(0.0)))) == NotAPolygon
  {
  }

  // ---------------------------------------------------------------------
  // clipData

  /** `a.lat !== b.lat || a.lng !== b.lng`. */
  predicate PointsDiffer(a: LatLng, b: LatLng) {
    !StrictEq(a.lat, b.lat) || !StrictEq(a.lng, b.lng)
  }

  /** The ring clipData hands to turf.polygon: the drawn points, closed by
      appending the first when it differs from the last. */
  function ClosedDrawnRing(latlngs: seq<LatLng>): (r: seq<LatLng>)
    ensures |latlngs| > 0 && PointsDiffer(latlngs[0], latlngs[|latlngs| - 1]) ==> r == latlngs + [latlngs[0]]
    ensures !(|latlngs| > 0 && PointsDiffer(latlngs[0], latlngs[|latlngs| - 1])) ==> r == latlngs
  {
    if |latlngs| > 0 && PointsDiffer(latlngs[0], latlngs[|latlngs| - 1]) then latlngs + [latlngs[0]]
    else latlngs
  }

  /** `[...latlngs]`, then a push: the drawn array itself is left alone,
      which the absent modifies clause states. */
  method CloseDrawnRing(latlngs: array<LatLng>) returns (closed: seq<LatLng>)
    ensures closed == ClosedDrawnRing(latlngs[..])
  {
    var copy := new LatLng[latlngs.Length](i requires 0 <= i < latlngs.Length reads latlngs => latlngs[i]);
    closed := copy[..];
    assert closed == latlngs[..];
    if latlngs.Length > 0
       && (!StrictEq(latlngs[0].lat, latlngs[latlngs.Length - 1].lat)
           || !StrictEq(latlngs[0].lng, latlngs[latlngs.Length - 1].lng))
    {
      closed := closed + [latlngs[0]];
    }
  }

  /** `closedLatLngs.map(point => [point.lng, point.lat])`. */
  function ClippingRing(latlngs: seq<LatLng>): (ring: seq<Position>)
    ensures |ring| == |ClosedDrawnRing(latlngs)|
    ensures forall k :: 0 <= k < |ring| ==>
      ring[k] == [ClosedDrawnRing(latlngs)[k].lng, ClosedDrawnRing(latlngs)[k].lat]
  {
    var closed := ClosedDrawnRing(latlngs);
    seq(|closed|, k requires 0 <= k < |closed| => [closed[k].lng, closed[k].lat])
  }

  /** The clipping ring keeps the drawn points, and when the first point has
      no NaN coordinate its last position equals its first. */
  lemma ClippingRingIsClosed(latlngs: seq<LatLng>)
    requires |latlngs| > 0 && !latlngs[0].lat.NaN? && !latlngs[0].lng.NaN?
    ensures var ring := ClippingRing(latlngs);
      |ring| >= |latlngs| && ring[0] == [latlngs[0].lng, latlngs[0].lat]
      && ring[|ring| - 1] == ring[0]
      && forall k :: 0 <= k < |latlngs| ==> ring[k] == [latlngs[k].lng, latlngs[k].lat]
  {
    var closed := ClosedDrawnRing(latlngs);
    if !PointsDiffer(latlngs[0], latlngs[|latlngs| - 1]) {
      assert latlngs[|latlngs| - 1] == latlngs[0];
    }
    assert closed[|closed| - 1] == closed[0];
  }

  /** Closing a closed ring changes nothing, when the first point has no
      NaN coordinate. */
  lemma CloseDrawnRingIsIdempotent(latlngs: seq<LatLng>)
    requires |latlngs| > 0 ==> !latlngs[0].lat.NaN? && !latlngs[0].lng.NaN?
    ensures ClosedDrawnRing(ClosedDrawnRing(latlngs)) == ClosedDrawnRing(latlngs)
  {
    var once := ClosedDrawnRing(latlngs);
    if |latlngs| > 0 {
      assert once[0] == latlngs[0];
      if !PointsDiffer(latlngs[0], latlngs[|latlngs| - 1]) {
        assert once == latlngs;
      } else {
        assert once[|once| - 1] == latlngs[0];
      }
    }
  }

  /** Unlike closePolygonIfNeeded, which gives no ring below three points,
      clipData closes a ring of one or two points: two differing points
      become three, and a single point is left as it is. */
  lemma ShortRingsAreClosedToo(a: LatLng, b: LatLng)
    requires PointsDiffer(a, b)
    ensures ClosedDrawnRing([a, b]) == [a, b, a]
    ensures Rings.ClosePolygonIfNeeded(Some([a, b]), PointsDiffer).None?
    ensures ClosedDrawnRing([a]) == [a] || a.lat.NaN? || a.lng.NaN?
  {
  }

  // ---------------------------------------------------------------------
  // toMeters of utils.js

  /** Projects a point relative to the reference (lng, lat). The point must
      be an array of exactly two elements; its values are not checked. */
  function StrictToMeters(point: Position, refLng: Num, refLat: Num, flipX: bool, geo: Geo): (r: Result<Vec2>)
    ensures r.Ok? <==> |point| == 2
  {
    if |point| != 2 then Err(InvalidCoordinateFormat)
    else
      var d := geo.rhumb(point[0], point[1], refLng, refLat);
      Ok(Vec2(Mul(d.x, if flipX then Fin(-1.0) else Fin(1.0)), d.y))
  }

  /** The toMeters of utils.js rejects every point of more than two
      components, which the one of buildingFactory.js accepts; on a finite
      pair and an array reference the two agree. */
  lemma StrictToMetersIsStricter(point: Position, refLng: Num, refLat: Num, flipX: bool, geo: Geo)
    ensures |point| > 2 && IsFinite(point[0]) && IsFinite(point[1]) ==>
      StrictToMeters(point, refLng, refLat, flipX, geo).Err?
      && Rings.ToMeters(point, RefArray([refLng, refLat]), flipX, geo).Ok?
    ensures |point| == 2 && IsFinite(point[0]) && IsFinite(point[1]) ==>
      StrictToMeters(point, refLng, refLat, flipX, geo) == Rings.ToMeters(point, RefArray([refLng, refLat]), flipX, geo)
    ensures Rings.ToMeters(point, RefArray([refLng, refLat]), flipX, geo).Err? && |point| >= 2 ==>
      !IsFinite(point[0]) || !IsFinite(point[1])
  {
  }
}
