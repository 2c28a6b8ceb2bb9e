/**
 * The per-mesh GPU tables both ray-tracing nodes build in `constructNode`:
 * one vertex buffer, one index buffer, one base-colour texture and one
 * `RTMesh` record per visited mesh, all four lists indexed by the mesh's
 * traversal position, and the binding set that exposes them to the closest
 * hit shader.
 */
module RTMeshTable {
  import opened Resources
  import opened Scene

  datatype MeshTable = MeshTable(
    vertexBuffers: seq<Handle>,
    indexBuffers: seq<Handle>,
    textures: seq<Handle>,
    rtMeshes: seq<RTMesh>)

  const EmptyTable := MeshTable([], [], [], [])

  /** Row `k` of the table belongs to `meshes[k]`: the record's object id and
      texture index are `k`, and the two buffers hold that mesh's vertices and
      indices. Texture contents are stated by each node. */
  ghost predicate RowsFor(resources: seq<Resource>, t: MeshTable, meshes: seq<Mesh>) {
    && |t.vertexBuffers| == |meshes| && |t.indexBuffers| == |meshes|
    && |t.textures| == |meshes| && |t.rtMeshes| == |meshes|
    && forall k :: 0 <= k < |meshes| ==>
      && WellFormed(meshes[k])
      && t.rtMeshes[k] == RTMesh(k, k)
      && t.vertexBuffers[k] < |resources|
      && resources[t.vertexBuffers[k]] == BufferResource(StorageBuffer, GpuOptimal, Vertices(VerticesOf(meshes[k])))
      && t.indexBuffers[k] < |resources|
      && resources[t.indexBuffers[k]] == BufferResource(StorageBuffer, GpuOptimal, Indices(meshes[k].indices))
  }

  lemma RowsForExtends(before: seq<Resource>, after: seq<Resource>, t: MeshTable, meshes: seq<Mesh>)
    requires RowsFor(before, t, meshes) && Extends(before, after)
    ensures RowsFor(after, t, meshes)
  {
  }

  /** The object-data binding set: the RTMesh buffer at slot 0, then the vertex
      buffers, index buffers and textures as arrays. */
  function ObjectDataBindings(meshBuffer: Handle, t: MeshTable, meshBufferType: BindingType): seq<ShaderBinding> {
    [ ShaderBinding(0, {RTClosestHit}, [meshBuffer], meshBufferType),
      ShaderBinding(1, {RTClosestHit}, t.vertexBuffers, Implicit),
      ShaderBinding(2, {RTClosestHit}, t.indexBuffers, Implicit),
      ShaderBinding(3, {RTClosestHit}, t.textures, SampledTextureArray) ]
  }

  /** `bindingSet` binds the table and `meshBuffer` holds its RTMesh records. */
  ghost predicate ObjectDataSet(resources: seq<Resource>, bindingSet: Handle, meshBuffer: Handle, t: MeshTable,
                                meshBufferType: BindingType) {
    && meshBuffer < |resources| && bindingSet < |resources|
    && resources[meshBuffer] == BufferResource(StorageBuffer, GpuOptimal, Meshes(t.rtMeshes))
    && resources[bindingSet] == BindingSetResource(ObjectDataBindings(meshBuffer, t, meshBufferType))
  }

  /** Appending one row for a new mesh keeps every earlier row. */
  lemma AppendRow(before: seq<Resource>, after: seq<Resource>, t: MeshTable, meshes: seq<Mesh>, mesh: Mesh,
                  vb: Handle, ib: Handle, tex: Handle)
    requires RowsFor(before, t, meshes) && Extends(before, after) && WellFormed(mesh)
    requires vb < |after| && after[vb] == BufferResource(StorageBuffer, GpuOptimal, Vertices(VerticesOf(mesh)))
    requires ib < |after| && after[ib] == BufferResource(StorageBuffer, GpuOptimal, Indices(mesh.indices))
    ensures RowsFor(after,
                    MeshTable(t.vertexBuffers + [vb], t.indexBuffers + [ib], t.textures + [tex],
                              t.rtMeshes + [RTMesh(|t.rtMeshes|, |t.textures|)]),
                    meshes + [mesh])
  {
    RowsForExtends(before, after, t, meshes);
    var ms := meshes + [mesh];
    assert forall k :: 0 <= k < |meshes| ==> ms[k] == meshes[k];
  }
}
