/**
 * The slice of the scene the ray-tracing nodes read: models made of meshes
 * (each model with a proxy model of simplified meshes), per-mesh vertex data
 * and material, the order in which the nodes visit meshes, and the per-mesh
 * vertex records they upload.
 */
module Scene {
  import opened Extent
  import opened Resources

  /** The material fields the nodes read. `baseColorPath` empty means "no
      base colour image"; `baseColorImageExtent` is the decoded size of that
      image; `baseColorTexture` is what `Material::baseColorTexture()` returns. */
  datatype Material = Material(
    baseColorPath: string,
    baseColorFactor: Vec4,
    baseColorImageExtent: Extent2D,
    baseColorTexture: Handle)

  datatype Mesh = Mesh(
    positions: seq<Vec3>,
    normals: seq<Vec3>,
    texCoords: seq<Vec2>,
    indices: seq<nat>,
    localNormalMatrix: Mat3,
    material: Material)

  /** A model's own meshes and the meshes of its proxy model. */
  datatype Model = Model(meshes: seq<Mesh>, proxyMeshes: seq<Mesh>)

  /** The vertex arrays have one entry per vertex (asserted by both nodes). */
  predicate WellFormed(mesh: Mesh) {
    |mesh.normals| == |mesh.positions| && |mesh.texCoords| == |mesh.positions|
  }

  /** The RT vertex built from vertex `i`. */
  function VertexAt(mesh: Mesh, i: nat): RTVertex
    requires WellFormed(mesh) && i < |mesh.positions|
  {
    var p, n, t := mesh.positions[i], mesh.normals[i], mesh.texCoords[i];
    RTVertex(Vec4(p.x, p.y, p.z, 0.0), NormalTimes(mesh.localNormalMatrix, n), Vec4(t.x, t.y, 0.0, 0.0))
  }

  /** All RT vertices of a mesh, in vertex order. */
  ghost function VerticesOf(mesh: Mesh): (vs: seq<RTVertex>)
    requires WellFormed(mesh)
  {
    seq(|mesh.positions|, i requires 0 <= i < |mesh.positions| => VertexAt(mesh, i))
  }

  /** The vertex loop of `createTriangleMeshVertexBuffer`: one record per position, in order. */
  method BuildVertices(mesh: Mesh) returns (vertices: seq<RTVertex>)
    requires WellFormed(mesh)
    ensures |vertices| == |mesh.positions|
    ensures forall i :: 0 <= i < |vertices| ==> vertices[i] == VertexAt(mesh, i)
    ensures vertices == VerticesOf(mesh)
  {
    vertices := [];
    var i := 0;
    while i < |mesh.positions|
      invariant 0 <= i <= |mesh.positions|
      invariant |vertices| == i
      invariant forall k :: 0 <= k < i ==> vertices[k] == VertexAt(mesh, k)
    {
      vertices := vertices + [VertexAt(mesh, i)];
      i := i + 1;
    }
  }

  /** The meshes one model contributes: its own, then (if asked) its proxy's. */
  function Visit(model: Model, withProxies: bool): seq<Mesh> {
    model.meshes + if withProxies then model.proxyMeshes else []
  }

  /** The meshes in the order `forEachModel` / `forEachMesh` visit them. */
  function Traversal(models: seq<Model>, withProxies: bool): seq<Mesh> {
    if models == [] then []
    else Traversal(models[..|models| - 1], withProxies) + Visit(models[|models| - 1], withProxies)
  }

  /** Extending the model list by one model appends that model's meshes. */
  lemma TraversalStep(models: seq<Model>, i: nat, withProxies: bool)
    requires i < |models|
    ensures Traversal(models[..i + 1], withProxies) == Traversal(models[..i], withProxies) + Visit(models[i], withProxies)
  {
    assert models[..i + 1][..i] == models[..i];
  }

  /** The traversal of a prefix of the models is a prefix of the traversal. */
  lemma {:induction false} TraversalPrefix(models: seq<Model>, i: nat, withProxies: bool)
    requires i <= |models|
    ensures Traversal(models[..i], withProxies) <= Traversal(models, withProxies)
    decreases |models| - i
  {
    if i < |models| {
      TraversalPrefix(models, i + 1, withProxies);
      TraversalStep(models, i, withProxies);
    } else {
      assert models[..i] == models;
    }
  }

  /** Where a model's meshes land: mesh `j` of model `i` is at position
      `|Traversal(models[..i])| + j`, and its proxy's mesh `j` follows all of
      the model's own meshes. */
  lemma TraversalPosition(models: seq<Model>, i: nat, j: nat, withProxies: bool)
    requires i < |models|
    ensures |Traversal(models[..i], withProxies)| + |Visit(models[i], withProxies)| <= |Traversal(models, withProxies)|
    ensures j < |models[i].meshes| ==>
      Traversal(models, withProxies)[|Traversal(models[..i], withProxies)| + j] == models[i].meshes[j]
    ensures withProxies && j < |models[i].proxyMeshes| ==>
      Traversal(models, withProxies)[|Traversal(models[..i], withProxies)| + |models[i].meshes| + j]
        == models[i].proxyMeshes[j]
  {
    TraversalPrefix(models, i + 1, withProxies);
    TraversalStep(models, i, withProxies);
  }

  /** The number of visited meshes. */
  function MeshCount(models: seq<Model>, withProxies: bool): nat {
    if models == [] then 0
    else
      var last := models[|models| - 1];
      MeshCount(models[..|models| - 1], withProxies) + |last.meshes| + (if withProxies then |last.proxyMeshes| else 0)
  }

  lemma {:induction false} TraversalLength(models: seq<Model>, withProxies: bool)
    ensures |Traversal(models, withProxies)| == MeshCount(models, withProxies)
    decreases |models|
  {
    if models != [] {
      TraversalLength(models[..|models| - 1], withProxies);
    }
  }

  /** Without proxies, a model's proxy meshes never influence the traversal. */
  lemma {:induction false} OwnMeshesIgnoreProxies(models: seq<Model>, others: seq<Model>)
    requires |models| == |others|
    requires forall i :: 0 <= i < |models| ==> models[i].meshes == others[i].meshes
    ensures Traversal(models, false) == Traversal(others, false)
    decreases |models|
  {
    if models != [] {
      var n := |models| - 1;
      OwnMeshesIgnoreProxies(models[..n], others[..n]);
    }
  }
}
