# Building meshes and tile plans of vantage-scene-setup

This project models the building-synthesis core of vantage-scene-setup in Dafny.
It covers two files.

`src/lib/buildingFactory.js` turns OpenStreetMap building features into three.js meshes:
- It projects GeoJSON coordinates to metres around a reference point.
- It builds wall and roof shapes, and resolves heights from tags.
- It adds towers and bare parts.
- It drops whole buildings that contain one of the explicit parts.
- It collects every mesh for a final merge, each with a UV attribute.

`src/lib/utils.js` contributes these pieces:
- the argument checks of `fetchData`;
- the ring a drawn area is closed into by `clipData`;
- the strict `toMeters`;
- the grid of map tiles, and the canvas size, of the satellite-image export.

## Modules

Each module follows one part of the source.

- `Js` models JavaScript values. `Num` is a JavaScript number: a finite real, an infinity or NaN. The module also has truthiness, `===`, the arithmetic the source uses, `trim`, `endsWith` and `toLowerCase`.
- `Features` holds the GeoJSON feature model, the tag values, the errors a call can throw (`Result`), and `Geo`. `Geo` gathers the library functions the model treats as opaque. They are passed as function values:
  - `parseFloat`;
  - turf's rhumb distance and bearing;
  - `Shape.getPoints`;
  - whether `turf.polygon` accepts a ring;
  - `turf.booleanContains`;
  - the vertex count after `toNonIndexed`.
- `Rings` covers `toMeters`, `getShapeFromCoordinates` and `closePolygonIfNeeded`.
- `Lengths` covers `normalizeLength`.
- `Heights` covers the height rules of `generateEnhancedBuildingMesh`.
- `Roofs` covers `createRoofGeometry`, including the pyramidal fan. The fan's loops are imperative methods, and the position buffer is an `array`.
- `Assembly` covers `generateExtraParts` and `generateEnhancedBuildingMesh`.
- `Scene` covers `containsAnyPart` and `generateEnhancedBuildings`.
- `Merge` covers the traversal of `generateMergedBuildingsGeometry`.
- `Utils` and `Tiles` cover the parts of `utils.js` listed above.

To keep each proof small, the inner tile loop is a method of its own, and the tile URL is a function parameter (`Tiles.LayerUrls`). For the same reason, the call to `generateEnhancedBuildingMesh` is passed to `Scene.BuildAll` and `Scene.BuildEach` as a function.

Each loop of the source that updates variables or arrays step by step is a method:
- the pairing loop of `getShapeFromCoordinates`;
- the four loops of the pyramidal fan: the centroid sum, the vertex pushes, the index pushes and the fill of the position array;
- the centroid sum of the tower (`Assembly.BuildTower`, which reuses the fan's centroid method);
- the two pushes of `generateExtraParts`;
- the partition, `containsAnyPart`, and the building filter and map;
- the traversal of the merge;
- the tile loops and the clip copy-and-push.

Each method's `ensures` ties its result to a function, and lemmas state what that function guarantees. The source's `map`/`filter` chains are functions: the validity filter and projection in `getShapeFromCoordinates` (`Rings.ProjectAll`), the hole outlines (`Assembly.HoleOutlines`) and the `[lng, lat]` map of the clipping ring (`Utils.ClippingRing`). The `forEach` loops that add meshes to a group (`src/lib/buildingFactory.js` lines 276 and 344) only append one list to another. They are modelled as list concatenation in `Assembly.Assemble` and `Scene.GenerateEnhancedBuildings`.

## Notes on the code's behaviour

- **Roof height.** A roof is built whenever the roof height is positive, even when it is at least the total height; the walls then take the whole total. A negative roof height is kept as it is, without clamping. `Heights.WallHeight`, `Assembly.RoofMesh` and `Assembly.ShapeMeshes` state this.
- **Tag defaults.** Absent height tags are read as `""`, and `"10"` is the tower default. `parseFloat("")` is NaN and `parseFloat("10")` is 10. These two facts of ECMAScript's `parseFloat` are the preconditions of the lemmas about the defaults:
  - the roof height is 0 and there is no roof;
  - the total height is 2 for a part and 4 for a whole building;
  - the tower is 10 high.
- **Exceptions.** Several inputs throw out of `generateEnhancedBuildings`. Each is an `Err` of `Result`:
  - `toLowerCase` on a numeric `building:part` or `roof:shape`;
  - a feature with a null geometry;
  - an empty MultiPolygon;
  - a ring that `turf.polygon` rejects inside `containsAnyPart`;
  - in `containsAnyPart`, reading the ring of a GeometryCollection, or of a Point with a truthy longitude. The Point passes `closePolygonIfNeeded`'s `!coords` test, and then `[0]` is read of `undefined`.
- **Other geometry types.** In `containsAnyPart`, a MultiLineString's first line is closed and tested like a ring. A LineString's or MultiPoint's first position of three or more numbers is handed to turf as a ring of numbers.
- **Merge.** Every geometry is made non-indexed before the merge. Vertices are not deduplicated.
- **Small rings.** `closePolygonIfNeeded` never closes a ring of fewer than three points, so such a ring gets no containment test.

## Model

| member | source | states |
|---|---|---|
| Rings.ReferenceCoord | src/lib/buildingFactory.js:16-28 | the reference resolves exactly when it is an array of at least two entries or an object with both `lng` and `lat` |
| Rings.ToMeters | src/lib/buildingFactory.js:5-36 | a point projects exactly when it has at least two finite leading entries and the reference resolves; the result is the rhumb offset with x negated when flipped |
| Rings.PairFlatCoords | src/lib/buildingFactory.js:40-46 | the pairing loop over a flat coordinate array yields the pairs `[c[i], c[i+1]]` for every even i |
| Rings.PairedRoundTrip | src/lib/buildingFactory.js:40-46 | flattening the pairs gives back the flat array, padded with NaN (an `undefined` second entry) when its length is odd |
| Rings.ProjectAll | src/lib/buildingFactory.js:57 | projecting all points succeeds exactly when every point projects, and then keeps order and count |
| Rings.GetShape | src/lib/buildingFactory.js:38-62 | a shape exists exactly when the ring has points, at least one valid finite pair, and every point projects; its outline is the projection of every point, valid or not, and it has no holes |
| Rings.PolygonAsRingHasNoShape | src/lib/buildingFactory.js:168-171 | a polygon handed where a ring is expected, with every position of at least two entries, yields no shape |
| Rings.ClosePolygonIfNeeded | src/lib/buildingFactory.js:281-291 | a ring is returned exactly for a ring of at least three points, with the first point appended exactly when it differs from the last |
| Rings.ClosedRingEndsAtStart | src/lib/buildingFactory.js:284-290 | the closed ring keeps the input as prefix, starts at the first point, and ends where it starts unless first and last compare equal |
| Rings.CloseIsIdempotent | src/lib/buildingFactory.js:281-291 | closing twice equals closing once, for any comparison under which the first point equals itself |
| Rings.PositionCloseIsIdempotent | src/lib/buildingFactory.js:287 | for coordinate positions without NaN in the first point, closing is idempotent |
| Rings.NaNPositionClosesAgain | src/lib/buildingFactory.js:287-289 | a first point with a NaN longitude never compares equal to itself, so each close appends it once more |
| Lengths.NormalizeLength | src/lib/buildingFactory.js:65-73 | a number is returned unchanged; a string whose trimmed form ends in " m" is parsed without those two characters; any other string is parsed as it is, untrimmed |
| Lengths.BareNumeralIsParsed | src/lib/buildingFactory.js:66-70 | a trimmed numeral without the suffix is parsed as it is |
| Lengths.MeterSuffixIsIgnored | src/lib/buildingFactory.js:67-68 | surrounding white space and the " m" suffix do not change the parsed length |
| Heights.TotalHeight | src/lib/buildingFactory.js:236-244 | no contract of its own: `Heights.HeightFallback`, `Heights.BuildingHeightWins`, `Heights.HeightFallbacks`, `Heights.FalsyTotalComesFromLevels` and `Heights.DefaultTotalHeight` state the total height rules |
| Heights.FirstTruthy | src/lib/buildingFactory.js:237-239 | the first tag that is set wins, else the empty string |
| Heights.HeightFallback | src/lib/buildingFactory.js:236-244 | a truthy explicit height wins; otherwise levels times 2 or 4, or 2 or 4 alone without levels; the total is falsy exactly when the levels are given and falsy |
| Heights.RoofHeight | src/lib/buildingFactory.js:245-246 | the roof height is never NaN; a truthy `roof:height` gives its normalised length, or 0 when that is NaN; without one it is 0 when `parseFloat("")` is NaN |
| Heights.WallHeight | src/lib/buildingFactory.js:247-248 | when the total exceeds the roof, wall plus roof equals the total (finite: their difference); otherwise the wall is the whole total; a non-negative roof gives a wall no taller than the total |
| Heights.ResolveHeights | src/lib/buildingFactory.js:234-248 | the three heights of a building are the total, roof and wall rules above |
| Heights.BuildingHeightWins | src/lib/buildingFactory.js:237-244 | a `building:height` whose normalised length is truthy is the total height, whatever `height` and `building:levels` say; one that normalises to NaN or 0, such as "abc", falls through to `height` and the levels |
| Heights.HeightFallbacks | src/lib/buildingFactory.js:240-244 | without a truthy explicit height, the total is levels times 2 for a part and 4 otherwise, or that factor alone without levels |
| Heights.FalsyTotalComesFromLevels | src/lib/buildingFactory.js:240-244 | a falsy total height arises only from a set `building:levels` that parses to a falsy number |
| Heights.DefaultTotalHeight | src/lib/buildingFactory.js:236-244 | without `building:height`, `height` and `building:levels`, the total height is 2 for a part and 4 for a whole building, given `parseFloat("")` is NaN |
| Heights.NoRoofTagWallIsTotal | src/lib/buildingFactory.js:245-248 | without a truthy `roof:height` the roof height is 0 and the wall height is the total, given `parseFloat("")` is NaN |
| Roofs.WallGeometry | src/lib/buildingFactory.js:75-85 | no contract of its own: `Assembly.ShapeMeshes` states that the walls are its extrusion by the wall height, `Assembly.ExtraParts` that a bare part is its extrusion by 1, and `Roofs.RoofGeometry` that a flat roof is tilted up and turned like it |
| Roofs.PyramidVertices | src/lib/buildingFactory.js:114-117 | the fan's vertices are the outline points at height 0 followed by the apex above the centroid at the roof height |
| Roofs.FlattenVec3At | src/lib/buildingFactory.js:126-131 | the position buffer holds x, y, z of vertex i at offsets 3i, 3i+1, 3i+2 |
| Roofs.FanPrefixAt | src/lib/buildingFactory.js:119-123 | after k steps the index list holds the k triangles (t, (t+1) mod n, n) |
| Roofs.FanIndicesShape | src/lib/buildingFactory.js:119-123 | the fan has 3n indices forming the triangles (t, (t+1) mod n, n), all below n+1 |
| Roofs.FanPositionsShape | src/lib/buildingFactory.js:110-131 | the position buffer has 3(n+1) entries: the outline at height 0, then the centroid at the roof height |
| Roofs.SumPoints | src/lib/buildingFactory.js:110-112 | the centroid loop sums the x and y coordinates in order |
| Roofs.PushVertices | src/lib/buildingFactory.js:114-117 | the vertex loop pushes the outline at height 0 and then the apex |
| Roofs.PushFanIndices | src/lib/buildingFactory.js:119-123 | the index loop pushes the fan triangles, closing the last one on the first point |
| Roofs.FillPositions | src/lib/buildingFactory.js:126-131 | filling the Float32Array in place gives the flattened vertices |
| Roofs.BuildPyramidFan | src/lib/buildingFactory.js:99-138 | the pyramidal branch computes exactly the fan positions and fan indices of the sampled outline |
| Roofs.RoofKindOf | src/lib/buildingFactory.js:89-99 | the roof kind is flat or pyramidal exactly when the lowercased `roof:shape` says so |
| Roofs.RoofGeometry | src/lib/buildingFactory.js:87-158 | a fan exactly for a pyramidal roof with at least three sampled points; the fan is built from the fan positions and indices of those points: 3(n+1) positions ending at the roof height and 3n indices below n+1; otherwise an extrusion of the roof height; both are tilted up and turned alike |
| Assembly.TowerMesh | src/lib/buildingFactory.js:183-207 | no contract of its own: `Assembly.BuildTower` computes it with the source's centroid loop, `Assembly.ExtraParts` puts it last for a tower feature, and `Assembly.DefaultTowerHeight` gives its default cylinder and lift |
| Assembly.PartWallWanted | src/lib/buildingFactory.js:163-167 | the bare-part test throws exactly for a non-zero numeric `building:part` (a truthy number; a falsy tag counts as unset), and otherwise holds for a "yes" part without a `building` tag |
| Assembly.ExtraParts | src/lib/buildingFactory.js:160-209 | throws exactly for a non-zero numeric `building:part` (a truthy number); otherwise a wall of height 1 for a bare part with a shape, then a tower for a tower feature, and nothing else |
| Assembly.GenerateExtraParts | src/lib/buildingFactory.js:160-209 | the two conditional pushes onto `extraMeshes` give the extra parts above |
| Assembly.BuildTower | src/lib/buildingFactory.js:188-200 | the tower branch, with its centroid loop, builds the tower mesh: the cylinder, moved to the centroid and lifted by half its height when there is a shape |
| Assembly.HoleOutlines | src/lib/buildingFactory.js:230-232 | the outlines are those of the holes at the positions `PresentIndices` lists, one per position and in that order; at most one per hole; all of them when every hole has a shape, none when none has |
| Assembly.PresentIndicesExact | src/lib/buildingFactory.js:232 | the positions `.filter(Boolean)` keeps are exactly those of the present values, in increasing order |
| Assembly.HoleOutlinesKeepShapedHoles | src/lib/buildingFactory.js:230-232 | every hole with a shape contributes its outline, and the outlines follow the order of their holes |
| Assembly.OuterAndHoles | src/lib/buildingFactory.js:215-226 | no contract of its own: `Assembly.BuildingMeshThrows` states that it throws exactly for an empty MultiPolygon, `Assembly.NoBuildingIff` that no rings means no building, and `Assembly.MultiPolygonIsItsFirstPolygon` that a MultiPolygon gives the rings of its first polygon |
| Assembly.RoofMesh | src/lib/buildingFactory.js:257-269 | a roof mesh exists exactly when the roof height is positive, and its last transform lifts it by the wall height |
| Assembly.Assemble | src/lib/buildingFactory.js:271-276 | the group holds the walls, then the roof if any, then the extra parts in order |
| Assembly.ShapeMeshes | src/lib/buildingFactory.js:228-278 | a building's meshes start with walls of the wall height, have a lifted roof second exactly when the roof height is positive, and end with at most two parts and towers |
| Assembly.BuildingMesh | src/lib/buildingFactory.js:211-279 | no contract of its own: `Assembly.NoBuildingIff`, `Assembly.BuildingMeshThrows`, `Assembly.OneBadPointDropsBuilding`, `Assembly.NoBuildingWithoutTagsOrPolygon`, `Assembly.BuildingLayout` and `Assembly.MultiPolygonIsItsFirstPolygon` state when it gives no building, when it throws, and what a building holds |
| Assembly.NoBuildingIff | src/lib/buildingFactory.js:211-229 | when it does not throw, no building comes out exactly when neither building tag is set, the geometry type is unsupported, or the outer ring has no shape |
| Assembly.BuildingMeshThrows | src/lib/buildingFactory.js:211-226 | a tagged feature throws for a null geometry and for an empty MultiPolygon; any other exception is `toLowerCase` of a number |
| Assembly.ShapeMeshesThrowOnNumbers | src/lib/buildingFactory.js:228-278 | the meshes of a shape can fail only on `toLowerCase` of a numeric `roof:shape` or `building:part` |
| Assembly.OneBadPointDropsBuilding | src/lib/buildingFactory.js:228-229 | one point of the outer ring that cannot be projected makes the whole feature yield no building, without an exception |
| Assembly.NoBuildingWithoutTagsOrPolygon | src/lib/buildingFactory.js:211-226 | a feature with neither building tag, or with a geometry other than Polygon and MultiPolygon, yields no building and no error |
| Assembly.BuildingLayout | src/lib/buildingFactory.js:211-279 | every building produced has the walls-roof-extras layout above |
| Assembly.MultiPolygonIsItsFirstPolygon | src/lib/buildingFactory.js:215-232 | without towers and bare parts, a MultiPolygon builds exactly like its first polygon |
| Assembly.MultiPolygonExtrasHaveNoShape | src/lib/buildingFactory.js:160-200 | for a MultiPolygon the extra parts get the first polygon instead of a ring, so there is no part wall and the tower is left untranslated |
| Assembly.TowerHeightDefault | src/lib/buildingFactory.js:188 | without a truthy `tower:height` the tower height is 10, given `parseFloat("10")` is 10 |
| Assembly.DefaultTowerHeight | src/lib/buildingFactory.js:188-199 | the default tower is a cylinder of radii 1, height 10 and 16 segments, and one over a shape is moved to the centroid and lifted by 5 |
| Assembly.NoRoofTagMeansNoRoof | src/lib/buildingFactory.js:245-258 | without a truthy `roof:height` a building gets no roof mesh, given `parseFloat("")` is NaN |
| Assembly.DefaultRoofIsFlat | src/lib/buildingFactory.js:258-263 | without a truthy `roof:shape` a roof is the flat extrusion by the roof height, tilted, turned and lifted by the wall height |
| Scene.Partition | src/lib/buildingFactory.js:320-331 | the partition loop yields, in order, the whole buildings and the parts |
| Scene.PartitionMembers | src/lib/buildingFactory.js:324-331 | a feature is among the wholes (parts) exactly when it is in the input and is one; no feature is both |
| Scene.PartitionCounts | src/lib/buildingFactory.js:324-331 | the two lists never outnumber the input, and together have its length when every feature is one or the other |
| Scene.ClosedRing | src/lib/buildingFactory.js:281-299 | reading the ring throws exactly for a geometry without coordinates or a Point with a truthy longitude; a Point with a falsy longitude gives no ring; otherwise it is the closed outer ring of a Polygon; for a MultiPolygon, the first polygon closed by `closePolygonIfNeeded` on its rings, which, as two ring arrays are never `===`, appends its first ring whenever that ring has a position; the first line of a MultiLineString; the first position of a LineString read as a flat ring; and no ring for an empty Polygon or MultiPolygon |
| Scene.CloseRingInput | src/lib/buildingFactory.js:281-291 | a ring is closed exactly when it has at least three elements; a flat ring of numbers is handed on unchanged, and a ring of positions as `closePolygonIfNeeded` closes it |
| Scene.ContainsAnyPartSpec | src/lib/buildingFactory.js:293-317 | no geometry or no parts means not contained; an unreadable building ring throws; no closable ring means not contained; a building ring turf rejects throws; an accepted ring gives the answer of the loop over the parts |
| Scene.ContainsAnyPart | src/lib/buildingFactory.js:293-317 | the early-returning loop computes the containment result defined above |
| Scene.AnyContained | src/lib/buildingFactory.js:303-316 | no contract of its own: `Scene.AnyContainedIff`, `Scene.AnyContainedFails` and `Scene.ContainsAnyPartSpec` state its answer and its exceptions, and `Scene.ContainsAnyPart` computes it with the early-returning loop |
| Scene.AnyContainedIff | src/lib/buildingFactory.js:303-316 | when every part ring can be read and turf accepts it, the answer is true exactly when some part's ring is contained in the building's |
| Scene.AnyContainedFails | src/lib/buildingFactory.js:303-311 | an error is an unreadable or rejected ring, and a part with such a ring exists |
| Scene.SurvivorsErrPersists | src/lib/buildingFactory.js:333-335 | an exception in the filter on a prefix is the exception of the whole filter |
| Scene.BuildAllErrPersists | src/lib/buildingFactory.js:339-341 | an exception while building a prefix is the exception of the whole map |
| Scene.FilterSurvivors | src/lib/buildingFactory.js:333-335 | the filter loop keeps the whole buildings that contain no part |
| Scene.BuildEach | src/lib/buildingFactory.js:339-341 | the map-and-filter loop builds each feature and drops the ones without a building |
| Scene.GenerateEnhancedBuildings | src/lib/buildingFactory.js:320-346 | the method computes the buildings of the surviving wholes followed by those of the parts |
| Scene.EnhancedBuildings | src/lib/buildingFactory.js:320-346 | no contract of its own: `Scene.GenerateEnhancedBuildings` computes it, and `Scene.RenderOrder`, `Scene.WithoutPartsAllWholesRender` and `Scene.UnreadableBuildingRingThrows` state its order, its no-parts case and an exception |
| Scene.SurvivorMembers | src/lib/buildingFactory.js:333-335 | a building survives exactly when it is a whole building containing no part; survivors never outnumber the wholes |
| Scene.NoPartsKeepsAll | src/lib/buildingFactory.js:294 | without parts every whole building survives |
| Scene.BuildAllAppend | src/lib/buildingFactory.js:337-341 | building a concatenation builds each half and concatenates the results |
| Scene.BuildAllCount | src/lib/buildingFactory.js:339-341 | at most one building per feature, each with at least one mesh |
| Scene.RenderOrder | src/lib/buildingFactory.js:337-341 | the scene lists the buildings of the survivors before those of the parts |
| Scene.WithoutPartsAllWholesRender | src/lib/buildingFactory.js:333-341 | without parts the scene is every whole building, built in order |
| Scene.UnreadableBuildingRingThrows | src/lib/buildingFactory.js:293-299 | a whole building whose ring cannot be read makes the whole scene throw when there is any part |
| Merge.ZeroUvArray | src/lib/buildingFactory.js:358-362 | the new UV array has two zero entries per vertex |
| Merge.Prepare | src/lib/buildingFactory.js:353-362 | a prepared geometry keeps its geometry and gets a zero UV exactly when it is the fan, sized two per vertex, the fan counting one vertex per index |
| Merge.PrepareAll | src/lib/buildingFactory.js:351-365 | one prepared geometry per mesh, in order |
| Merge.CollectForMerge | src/lib/buildingFactory.js:350-365 | the traversal prepares every mesh of every building in order |
| Merge.GenerateMergedBuildingsGeometry | src/lib/buildingFactory.js:348-370 | the method returns the prepared geometries, or no geometry when there is none |
| Merge.MergedBuildings | src/lib/buildingFactory.js:348-370 | no contract of its own: `Merge.GenerateMergedBuildingsGeometry` computes it, and `Merge.NoGeometryIffNoBuildings` states when it is empty |
| Merge.AllMeshesCount | src/lib/buildingFactory.js:351-365 | buildings with at least one mesh give at least as many meshes as buildings |
| Merge.NoGeometryIffNoBuildings | src/lib/buildingFactory.js:366-369 | there is no merged geometry exactly when no feature yields a building |
| Utils.ValidateFetchInput | src/lib/utils.js:20-33 | no contract of its own: `Utils.FetchDataProceedsIff` and `Utils.ZeroCoordinatesAreRejected` state which inputs go on and which are rejected |
| Utils.FetchDataProceedsIff | src/lib/utils.js:20-33 | fetchData goes on exactly for a circle with truthy radius, lat and lng, or a non-empty point array, and carries that input unchanged |
| Utils.ZeroCoordinatesAreRejected | src/lib/utils.js:25-29 | a circle on the equator or prime meridian is rejected, and a zero radius makes it no circle |
| Utils.ClosedDrawnRing | src/lib/utils.js:120-127 | the drawn ring gets its first point appended exactly when that point differs from the last |
| Utils.CloseDrawnRing | src/lib/utils.js:120-127 | the copy-then-push computes the closed ring and leaves the drawn array untouched |
| Utils.ClippingRing | src/lib/utils.js:128-130 | each closed point becomes `[lng, lat]`, in order |
| Utils.ClippingRingIsClosed | src/lib/utils.js:120-130 | the clipping ring keeps every drawn point and ends at its start when the first point has no NaN |
| Utils.CloseDrawnRingIsIdempotent | src/lib/utils.js:120-127 | closing a closed drawn ring changes nothing |
| Utils.ShortRingsAreClosedToo | src/lib/utils.js:120-127 | unlike `closePolygonIfNeeded`, two differing points are closed into three |
| Utils.StrictToMeters | src/lib/utils.js:396-408 | a point projects exactly when it has exactly two entries |
| Utils.StrictToMetersIsStricter | src/lib/utils.js:396-401 | longer finite points are rejected here and accepted by the other `toMeters`, and finite pairs project alike in both |
| Tiles.NormalizeCorners | src/lib/utils.js:292-300 | the corners are ordered and keep the original coordinates |
| Tiles.NormalizeCornersIsSymmetric | src/lib/utils.js:292-300 | the order in which the two corners are given does not matter, and each lies in the range |
| Tiles.TileCount | src/lib/utils.js:302-303 | the tile count covers the inclusive range and is at least 1 |
| Tiles.CanvasSize | src/lib/utils.js:302-308 | the canvas is 256 pixels per tile in each direction, at least one tile |
| Tiles.IndexOf | src/lib/utils.js:313-316 | the found index is the first occurrence from the start offset, or there is none |
| Tiles.ReplaceFirst | src/lib/utils.js:313-316 | the first occurrence of the placeholder is replaced by the text, and a template without it is left unchanged |
| Tiles.NatDigits | src/lib/utils.js:314-316 | a number's decimal digits are non-empty and all digits |
| Tiles.NatDigitsRoundTrip | src/lib/utils.js:314-316 | reading back the digits gives the number |
| Tiles.TileUrl | src/lib/utils.js:313-316 | no contract of its own: `Tiles.TileUrlFillsPlaceholders` states the URL it makes of a template |
| Tiles.TileUrlFillsPlaceholders | src/lib/utils.js:313-316 | when the text before each placeholder has no `{`, the URL is the template with `{z}` replaced by 17 and `{x}` and `{y}` by the tile's column and row |
| Tiles.Column | src/lib/utils.js:312-323 | one entry per row of the column, in order, with its offset and URL |
| Tiles.GridLength | src/lib/utils.js:310-324 | the grid has one entry per tile |
| Tiles.GridEntries | src/lib/utils.js:310-324 | every entry lies on the canvas and carries the URL of its tile |
| Tiles.GridOrdered | src/lib/utils.js:310-324 | entries come column by column, top to bottom in each |
| Tiles.GridComplete | src/lib/utils.js:310-324 | every tile of the range is listed |
| Tiles.EnumerateColumn | src/lib/utils.js:312-323 | the inner loop computes one column |
| Tiles.EnumerateTiles | src/lib/utils.js:310-324 | the nested loop computes the grid from the top-left corner |
| Tiles.PlanTileFetch | src/lib/utils.js:269-324 | no plan without an area or a layer; otherwise the ordered corners, canvas size and grid |
| Tiles.PlanTiles | src/lib/utils.js:269-324 | no contract of its own: `Tiles.PlanTileFetch` computes it, and `Tiles.PlanShape` states what the plan covers |
| Tiles.PlanShape | src/lib/utils.js:292-324 | the plan covers the canvas with one entry per tile at distinct offsets |

## Left out

- Floating point is not modelled: numbers are exact reals, with no rounding and no negative zero. Trigonometry and turf's rhumb functions, `Shape.getPoints`, `turf.polygon`, `turf.booleanContains`, `parseFloat` and three.js's vertex counts are opaque function parameters. `mergeGeometries` itself is not modelled, only what is handed to it.
- `parseFloat` is opaque, so nothing is assumed of it in general. Where a default depends on it, the lemma takes the ECMAScript facts it needs as preconditions: `parseFloat("")` is NaN and `parseFloat("10")` is 10. Those lemmas are `Heights.DefaultTotalHeight`, `Heights.NoRoofTagWallIsTotal`, `Assembly.TowerHeightDefault`, `Assembly.DefaultTowerHeight` and `Assembly.NoRoofTagMeansNoRoof`. `Heights.RoofHeight` takes them as a premise of its ensures.
- Leaflet bounds, `latLngToTile` and the conversion of a circle's radius to bounds are floating-point plumbing. The tile corners are given as integers.
- Network requests, the Overpass query, JSZip, the GLTF export, canvas drawing and tile image fetches are I/O and are left out. `clipData` is modelled up to the ring it hands to turf.
- `toLowerCase` is modelled on ASCII letters only.
- Materials, colours, normals (`computeVertexNormals`) and transform matrices are left out. The four mesh names are kept as the mesh's role. Transforms are recorded symbolically as a list of rotations and translations.
- The console warnings are not modelled, since they change nothing.
- The centroid sums use exact addition in the source's order. Float rounding is not modelled.
