/** generateMergedBuildingsGeometry of buildingFactory.js: every mesh of the
    scene, in traversal order, made non-indexed and given a UV attribute
    before the merge; no geometry at all when there is no mesh. */
module Merge {
  import opened Js
  import opened Features
  import opened Scene

  /** The UV attribute after preparation: the one the geometry already has,
      or a zero-filled Float32Array of two entries per vertex. */
  datatype Uv = ProvidedUv | ZeroUv(values: seq<Num>)

  /** One geometry handed to mergeGeometries: the transformed geometry, the
      number of positions once it is non-indexed, and its UV attribute. */
  datatype Prepared = Prepared(geometry: Geometry, vertexCount: nat, uv: Uv)

  /** ExtrudeGeometry and CylinderGeometry build a UV attribute; the fan has
      only positions and normals. */
  predicate HasUv(b: Body) {
    !b.Fan?
  }

  /** The position count after toNonIndexed: one position per index for the
      fan, the library's count otherwise. */
  function VertexCount(g: Geometry, geo: Geo): nat {
    if g.body.Fan? then |g.body.indices| else geo.flatVertexCount(g)
  }

  /** The zero-filled UV array of `new Float32Array(count * 2)`. */
  method ZeroUvArray(count: nat) returns (uv: seq<Num>)
    ensures |uv| == 2 * count
    ensures forall k :: 0 <= k < |uv| ==> uv[k] == Fin(0.0)
  {
    var uvArray := new Num[count * 2](_ => Fin(0.0));
    uv := uvArray[..];
  }

  function ZeroUvFor(count: nat): seq<Num> {
    seq(2 * count, _ => Fin(0.0))
  }

  /** One geometry as the traversal prepares it. Every prepared geometry
      has a UV attribute of two entries per position: the fan's is filled
      with zeros and has 2 * |indices| entries, the others keep their own. */
  function Prepare(m: Mesh, geo: Geo): (p: Prepared)
    ensures p.geometry == m.geometry
    ensures p.uv.ZeroUv? <==> m.geometry.body.Fan?
    ensures p.uv.ZeroUv? ==> |p.uv.values| == 2 * p.vertexCount
    ensures p.uv.ZeroUv? ==> forall k :: 0 <= k < |p.uv.values| ==> p.uv.values[k] == Fin(0.0)
    ensures m.geometry.body.Fan? ==> p.vertexCount == |m.geometry.body.indices|
  {
    var count := VertexCount(m.geometry, geo);
    Prepared(m.geometry, count, if HasUv(m.geometry.body) then ProvidedUv else ZeroUv(ZeroUvFor(count)))
  }

  /** The meshes in `group.traverse` order: building by building, each
      building's meshes in the order they were added. */
  function AllMeshes(bs: seq<Building>): seq<Mesh> {
    if bs == [] then [] else AllMeshes(bs[..|bs| - 1]) + bs[|bs| - 1].meshes
  }

  function PrepareAll(ms: seq<Mesh>, geo: Geo): (ps: seq<Prepared>)
    ensures |ps| == |ms|
    ensures forall k :: 0 <= k < |ms| ==> ps[k] == Prepare(ms[k], geo)
  {
    seq(|ms|, k requires 0 <= k < |ms| => Prepare(ms[k], geo))
  }

  /** The traversal: each mesh's geometry is prepared and pushed. */
  method CollectForMerge(bs: seq<Building>, geo: Geo) returns (geometries: seq<Prepared>)
    ensures geometries == PrepareAll(AllMeshes(bs), geo)
  {
    geometries := [];
    for i := 0 to |bs|
      invariant geometries == PrepareAll(AllMeshes(bs[..i]), geo)
    {
      assert bs[..i + 1][..i] == bs[..i];
      ghost var done := AllMeshes(bs[..i]);
      var meshes := bs[i].meshes;
      for j := 0 to |meshes|
        invariant geometries == PrepareAll(done + meshes[..j], geo)
      {
        assert (done + meshes[..j + 1]) == (done + meshes[..j]) + [meshes[j]];
        var g := meshes[j].geometry;
        var count := VertexCount(g, geo);
        var uv := ProvidedUv;
        if !HasUv(g.body) {
          var values := ZeroUvArray(count);
          assert values == ZeroUvFor(count);
          uv := ZeroUv(values);
        }
        geometries := geometries + [Prepared(g, count, uv)];
      }
      assert meshes[..|meshes|] == meshes;
      assert AllMeshes(bs[..i + 1]) == done + meshes;
    }
    assert bs[..|bs|] == bs;
  }

  /** generateMergedBuildingsGeometry: the prepared geometries to merge, one
      group each, or no geometry when the scene has no mesh. */
  function MergedBuildings(features: seq<Feature>, ref: Reference, geo: Geo): Result<Option<seq<Prepared>>> {
    var bs :- EnhancedBuildings(features, ref, geo);
    var geometries := PrepareAll(AllMeshes(bs), geo);
    Ok(if |geometries| > 0 then Some(geometries) else None)
  }

  method GenerateMergedBuildingsGeometry(features: seq<Feature>, ref: Reference, geo: Geo)
    returns (r: Result<Option<seq<Prepared>>>)
    ensures r == MergedBuildings(features, ref, geo)
  {
    var group := GenerateEnhancedBuildings(features, ref, geo);
    if group.Err? {
      return Err(group.error);
    }
    var geometries := CollectForMerge(group.value, geo);
    if |geometries| > 0 {
      return Ok(Some(geometries));
    }
    return Ok(None);
  }

  lemma {:induction false} AllMeshesCount(bs: seq<Building>)
    requires forall k :: 0 <= k < |bs| ==> |bs[k].meshes| >= 1
    ensures |AllMeshes(bs)| >= |bs|
  {
    if bs != [] {
      AllMeshesCount(bs[..|bs| - 1]);
    }
  }

  /** Since every building has its walls, there is no merged geometry
      exactly when no feature yields a building. */
  lemma NoGeometryIffNoBuildings(features: seq<Feature>, ref: Reference, geo: Geo)
    requires MergedBuildings(features, ref, geo).Ok?
    ensures EnhancedBuildings(features, ref, geo).Ok?
    ensures MergedBuildings(features, ref, geo).value.None? <==> EnhancedBuildings(features, ref, geo).value == []
  {
    var bs := EnhancedBuildings(features, ref, geo).value;
    var valid := Survivors(Wholes(features), Parts(features), geo).value;
    BuildAllCount(valid + Parts(features), ref, geo);
    AllMeshesCount(bs);
  }
}
