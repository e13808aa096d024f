/** The height rules of generateEnhancedBuildingMesh: total height, roof
    height and wall height of one feature. */
module Heights {
  import opened Js
  import opened Features
  import opened Lengths

  /** `parseFloat(v)`: a number goes through String() and back unchanged. */
  function ParseFloatTag(v: TagValue, parse: string -> Num): Num {
    match v
    case Text(s) => parse(s)
    case Number(n) => n
  }

  /** `props[a] || props[b] || ""`. */
  function FirstTruthy(props: Props, a: string, b: string): (r: TagValue)
    ensures HasTag(props, a) ==> r == props[a]
    ensures !HasTag(props, a) && HasTag(props, b) ==> r == props[b]
    ensures !HasTag(props, a) && !HasTag(props, b) ==> r == Text("")
  {
    if HasTag(props, a) then props[a]
    else if HasTag(props, b) then props[b]
    else Text("")
  }

  predicate IsPart(props: Props) { HasTag(props, "building:part") }

  /** The height the tags give explicitly, before any fallback. */
  function ExplicitHeight(props: Props, parse: string -> Num): Num {
    NormalizeLength(FirstTruthy(props, "building:height", "height"), parse)
  }

  /** `building:levels` parsed, when the tag is set. */
  function Levels(props: Props, parse: string -> Num): Option<Num> {
    if HasTag(props, "building:levels") then Some(ParseFloatTag(props["building:levels"], parse)) else None
  }

  /** The height of one level: 2 for parts, 4 for whole buildings. */
  function PerLevel(props: Props): Num {
    if IsPart(props) then Fin(2.0) else Fin(4.0)
  }

  /** The fallback rule on numbers: an explicit height that is falsy, NaN or
      0 gives way to the levels times the height of a level, or, without
      levels, to the height of one level. The result is falsy only when the
      levels are given and are falsy. */
  function HeightFallback(explicit: Num, levels: Option<Num>, perLevel: Num): (total: Num)
    requires perLevel == Fin(2.0) || perLevel == Fin(4.0)
    ensures Truthy(explicit) ==> total == explicit
    ensures !Truthy(explicit) && levels.Some? ==> total == Mul(levels.value, perLevel)
    ensures !Truthy(explicit) && levels.None? ==> total == perLevel
    ensures !Truthy(total) <==> !Truthy(explicit) && levels.Some? && !Truthy(levels.value)
  {
    if !Truthy(explicit) || explicit.NaN? || StrictEq(explicit, Fin(0.0)) then
      if levels.Some? then Mul(levels.value, perLevel) else perLevel
    else explicit
  }

  /** `building:height`, then `height`, with the fallback to the levels. */
  function TotalHeight(props: Props, parse: string -> Num): Num {
    HeightFallback(ExplicitHeight(props, parse), Levels(props, parse), PerLevel(props))
  }

  /** `props["roof:height"] || ""` normalised, NaN becoming 0. Since
      ECMAScript's parseFloat gives NaN for "", a feature without a truthy
      `roof:height` has a roof height of 0. */
  function RoofHeight(props: Props, parse: string -> Num): (r: Num)
    ensures !r.NaN?
    ensures !HasTag(props, "roof:height") && parse("").NaN? ==> r == Fin(0.0)
    ensures HasTag(props, "roof:height") && !NormalizeLength(props["roof:height"], parse).NaN? ==>
      r == NormalizeLength(props["roof:height"], parse)
    ensures HasTag(props, "roof:height") && NormalizeLength(props["roof:height"], parse).NaN? ==> r == Fin(0.0)
  {
    var roof := NormalizeLength(if HasTag(props, "roof:height") then props["roof:height"] else Text(""), parse);
    if roof.NaN? then Fin(0.0) else roof
  }

  /** The wall height on numbers: total minus roof when the total is
      greater, so that wall and roof add up to the total; otherwise the
      whole total. */
  function WallHeight(total: Num, roof: Num): (wall: Num)
    requires !roof.NaN?
    ensures Gt(total, roof) && !roof.NegInf? ==> Add(wall, roof) == total
    ensures Gt(total, roof) && total.Fin? && roof.Fin? ==> wall == Fin(total.v - roof.v)
    ensures !Gt(total, roof) ==> wall == total
    ensures total.Fin? && roof.Fin? && roof.v >= 0.0 ==> wall.Fin? && wall.v <= total.v
  {
    if Gt(total, roof) then Sub(total, roof) else total
  }

  datatype Heights = Heights(total: Num, roof: Num, wall: Num)

  /** The heights of a feature: the total, the roof and the wall by the
      rule of WallHeight. */
  function ResolveHeights(props: Props, parse: string -> Num): (h: Heights)
    ensures h.total == TotalHeight(props, parse) && h.roof == RoofHeight(props, parse)
    ensures h.wall == WallHeight(h.total, h.roof)
  {
    var total := TotalHeight(props, parse);
    var roof := RoofHeight(props, parse);
    Heights(total, roof, WallHeight(total, roof))
  }

  /** A truthy `building:height` decides the total, whatever else is set. */
  lemma BuildingHeightWins(props: Props, parse: string -> Num)
    requires HasTag(props, "building:height")
    requires Truthy(NormalizeLength(props["building:height"], parse))
    ensures TotalHeight(props, parse) == NormalizeLength(props["building:height"], parse)
  {
  }

  /** Without a usable explicit height the levels decide, and without levels
      the default does. */
  lemma HeightFallbacks(props: Props, parse: string -> Num)
    requires !Truthy(ExplicitHeight(props, parse))
    ensures HasTag(props, "building:levels") ==>
      TotalHeight(props, parse) == Mul(ParseFloatTag(props["building:levels"], parse),
                                       if IsPart(props) then Fin(2.0) else Fin(4.0))
    ensures !HasTag(props, "building:levels") ==>
      TotalHeight(props, parse) == if IsPart(props) then Fin(2.0) else Fin(4.0)
  {
  }

  /** The total height is falsy (0 or NaN) only when `building:levels` is set
      and parses to 0 or NaN. */
  lemma FalsyTotalComesFromLevels(props: Props, parse: string -> Num)
    ensures !Truthy(TotalHeight(props, parse)) ==>
      HasTag(props, "building:levels") && !Truthy(ParseFloatTag(props["building:levels"], parse))
  {
  }

  /** A feature without `building:height`, `height` and `building:levels`
      gets the default total height: 2 for a part, 4 for a whole building,
      the empty string parsing to NaN. */
  lemma DefaultTotalHeight(props: Props, parse: string -> Num)
    requires parse("").NaN?
    requires !HasTag(props, "building:height") && !HasTag(props, "height") && !HasTag(props, "building:levels")
    ensures TotalHeight(props, parse) == if IsPart(props) then Fin(2.0) else Fin(4.0)
  {
    assert ExplicitHeight(props, parse) == parse("");
  }

  /** Without a truthy `roof:height` the roof height is 0 and the walls
      take the whole total height. */
  lemma NoRoofTagWallIsTotal(props: Props, parse: string -> Num)
    requires parse("").NaN? && !HasTag(props, "roof:height")
    ensures ResolveHeights(props, parse) == Heights(TotalHeight(props, parse), Fin(0.0), TotalHeight(props, parse))
  {
    var total := TotalHeight(props, parse);
    if Gt(total, Fin(0.0)) {
      assert Sub(total, Fin(0.0)) == total;
    }
  }
}
