/**
 * The first-hit ray-tracing node. `constructNode` uploads one row per mesh
 * of every model (never the proxies), taking each mesh's base-colour texture
 * from its material, and binds the table for the closest-hit shader. Each
 * frame publishes a storage image, writes the elapsed time into a uniform
 * buffer, and traces one ray per window pixel with recursion depth 1.
 */
module RTFirstHitNode {
  import opened Extent
  import opened Resources
  import opened Wrappers
  import opened Commands
  import opened Scene
  import opened RTMeshTable
  import opened ResourceRegistry

  const NodeName := "rt-firsthit"
  /** The producer of the camera buffer and the environment map. */
  const SceneNode := "scene"
  const FirstHitSbt := ShaderBindingTable("rt-firsthit/raygen.rgen", ["rt-firsthit/closestHit.rchit"], ["rt-firsthit/miss.rmiss"])
  const MaxRecursionDepth: nat := 1
  /** The opaque white sRGB pixel used when the scene has no environment map. */
  const White := Vec4(1.0, 1.0, 1.0, 1.0)
  /** Bytes of the time buffer: one 32-bit float. */
  const TimeBufferSize: nat := 4

  function Name(): (n: string)
    ensures n == NodeName
  {
    "rt-firsthit"
  }

  /** The table's rows for `meshes`; each row's texture is the material's own. */
  ghost predicate TableFor(resources: seq<Resource>, t: MeshTable, meshes: seq<Mesh>) {
    && RowsFor(resources, t, meshes)
    && forall k :: 0 <= k < |meshes| ==> t.textures[k] == meshes[k].material.baseColorTexture
  }

  /** `createTriangleMeshVertexBuffer`: appends the mesh's row to the table. */
  method AddMesh(reg: Registry, mesh: Mesh, t: MeshTable, ghost visited: seq<Mesh>) returns (t': MeshTable)
    requires reg.Valid() && WellFormed(mesh) && TableFor(reg.resources, t, visited)
    modifies reg
    ensures reg.Valid() && Extends(old(reg.resources), reg.resources)
    ensures reg.published == old(reg.published) && reg.currentNode == old(reg.currentNode)
    ensures TableFor(reg.resources, t', visited + [mesh])
  {
    ghost var before := reg.resources;
    var vertices := BuildVertices(mesh);
    var tex := mesh.material.baseColorTexture;
    var vb := reg.CreateBuffer(StorageBuffer, GpuOptimal, Vertices(vertices));
    var ib := reg.CreateBuffer(StorageBuffer, GpuOptimal, Indices(mesh.indices));
    t' := MeshTable(t.vertexBuffers + [vb], t.indexBuffers + [ib], t.textures + [tex],
                    t.rtMeshes + [RTMesh(|t.rtMeshes|, |t.textures|)]);
    AppendRow(before, reg.resources, t, visited, mesh, vb, ib, tex);
  }

  /** One model's `forEachMesh`: its own meshes in order. */
  method AddModel(reg: Registry, models: seq<Model>, i: nat, t: MeshTable) returns (t': MeshTable)
    requires i < |models| && reg.Valid() && TableFor(reg.resources, t, Traversal(models[..i], false))
    requires forall m | m in models[i].meshes :: WellFormed(m)
    modifies reg
    ensures reg.Valid() && Extends(old(reg.resources), reg.resources)
    ensures reg.published == old(reg.published) && reg.currentNode == old(reg.currentNode)
    ensures TableFor(reg.resources, t', Traversal(models[..i + 1], false))
  {
    ghost var prefix := Traversal(models[..i], false);
    var meshes := models[i].meshes;
    t' := t;
    var j := 0;
    while j < |meshes|
      invariant 0 <= j <= |meshes|
      invariant reg.Valid() && Extends(old(reg.resources), reg.resources)
      invariant reg.published == old(reg.published) && reg.currentNode == old(reg.currentNode)
      invariant TableFor(reg.resources, t', prefix + meshes[..j])
    {
      ghost var before := reg.resources;
      t' := AddMesh(reg, meshes[j], t', prefix + meshes[..j]);
      ExtendsTransitive(old(reg.resources), before, reg.resources);
      assert prefix + meshes[..j] + [meshes[j]] == prefix + meshes[..j + 1];
      j := j + 1;
    }
    assert meshes[..j] == meshes;
    TraversalStep(models, i, false);
  }

  /** Every own mesh of model `i` is among the traversed meshes. */
  lemma OwnMeshesTraversed(models: seq<Model>, i: nat)
    requires i < |models|
    ensures forall m | m in models[i].meshes :: m in Traversal(models, false)
  {
    var prefix := Traversal(models[..i], false);
    var all := Traversal(models, false);
    forall j | 0 <= j < |models[i].meshes|
      ensures models[i].meshes[j] in all
    {
      TraversalPosition(models, i, j, false);
      assert all[|prefix| + j] in all;
    }
  }

  /** The four bindings of the per-frame set: scene TLAS, storage image and
      camera for ray generation, the time buffer for the miss shader. */
  function FrameBindings(tlas: Handle, storageImage: Handle, camera: Handle, timeBuffer: Handle): seq<ShaderBinding> {
    [ ShaderBinding(0, {RTRayGen}, [tlas], Implicit),
      ShaderBinding(1, {RTRayGen}, [storageImage], StorageImage),
      ShaderBinding(2, {RTRayGen}, [camera], Implicit),
      ShaderBinding(3, {RTMiss}, [timeBuffer], Implicit) ]
  }

  /** The handles the closure captures, and the texture the environment set binds. */
  datatype FirstHitFrame = FirstHitFrame(
    storageImage: Handle, timeBuffer: Handle, environmentTexture: Handle, environmentBindingSet: Handle,
    frameBindingSet: Handle, rtState: Handle)

  /** What `constructFrame` builds, given the looked-up TLAS and camera. The
      time buffer keeps its usage and memory hint; its contents change every frame. */
  ghost predicate FrameBuilt(resources: seq<Resource>, f: FirstHitFrame, windowExtent: Extent2D,
                             objectData: Handle, tlas: Handle, camera: Handle) {
    && f.storageImage < |resources|
    && resources[f.storageImage] == TextureResource(Texture(windowExtent, Allocated(RGBA16F, DefaultMipmap, DefaultTextureUsage, DefaultWrap)))
    && f.timeBuffer < |resources|
    && resources[f.timeBuffer].BufferResource?
    && resources[f.timeBuffer].usage == UniformBuffer && resources[f.timeBuffer].hint == TransferOptimal
    && f.environmentBindingSet < |resources|
    && resources[f.environmentBindingSet] == BindingSetResource([ShaderBinding(0, {RTMiss}, [f.environmentTexture], TextureSampler)])
    && f.frameBindingSet < |resources|
    && resources[f.frameBindingSet] == BindingSetResource(FrameBindings(tlas, f.storageImage, camera, f.timeBuffer))
    && f.rtState < |resources|
    && resources[f.rtState] == RayTracingStateResource(FirstHitSbt, [f.frameBindingSet, objectData, f.environmentBindingSet], MaxRecursionDepth)
  }

  /** The environment map if the scene published one, else the white pixel texture. */
  ghost predicate EnvironmentOrWhite(resources: seq<Resource>, bound: Handle, published: Option<Handle>) {
    if published.Some? then bound == published.value
    else bound < |resources| && resources[bound] == TextureResource(Texture(Extent2D(1, 1), Pixel(White, true)))
  }

  /** The closure's commands: set the state, bind the three sets at the
      indices of the state's layout, and trace one ray per window pixel. */
  function FrameCommands(f: FirstHitFrame, objectData: Handle, windowExtent: Extent2D): seq<Command> {
    [ SetRayTracingState(f.rtState), BindSet(f.frameBindingSet, 0), BindSet(objectData, 1),
      BindSet(f.environmentBindingSet, 2), TraceRays(windowExtent) ]
  }

  /** Each set the closure binds sits at its own index of the ray-tracing
      state's layout, and the trace follows every bind. */
  lemma BindsMatchLayout(resources: seq<Resource>, f: FirstHitFrame, windowExtent: Extent2D, objectData: Handle,
                         tlas: Handle, camera: Handle, appExtent: Extent2D)
    requires FrameBuilt(resources, f, windowExtent, objectData, tlas, camera)
    ensures var cmds := FrameCommands(f, objectData, appExtent);
      var sets := resources[f.rtState].sets;
      && cmds[0] == SetRayTracingState(f.rtState)
      && (forall i :: 0 <= i < |cmds| && cmds[i].BindSet? ==> cmds[i].index < |sets| && cmds[i].bindingSet == sets[cmds[i].index])
      && (forall i :: 0 <= i < |sets| ==> BindSet(sets[i], i) in cmds)
      && cmds[|cmds| - 1] == TraceRays(appExtent)
  {
    var cmds := FrameCommands(f, objectData, appExtent);
    assert cmds[1] == BindSet(f.frameBindingSet, 0) && cmds[2] == BindSet(objectData, 1) && cmds[3] == BindSet(f.environmentBindingSet, 2);
  }

  /** Every handle the frame created is a new arena slot from `start` on, in
      creation order, so no two coincide and the storage image is none of the
      earlier resources (the white pixel texture may or may not take the slot
      after the time buffer). */
  predicate FreshLayout(f: FirstHitFrame, start: nat) {
    && f.storageImage == start && f.timeBuffer == start + 1
    && f.timeBuffer < f.environmentBindingSet
    && f.frameBindingSet == f.environmentBindingSet + 1 && f.rtState == f.frameBindingSet + 1
  }

  class RTFirstHitNode {
    var objectDataBindingSet: Handle
    ghost var meshTable: MeshTable
    ghost var meshBuffer: Handle

    constructor ()
    {
    }

    /** `constructNode`: one row per own mesh of every model, the RTMesh
        buffer, and the object-data binding set. */
    method ConstructNode(reg: Registry, models: seq<Model>)
      requires reg.Valid()
      requires forall m | m in Traversal(models, false) :: WellFormed(m)
      modifies this, reg
      ensures reg.Valid() && Extends(old(reg.resources), reg.resources)
      ensures reg.published == old(reg.published) && reg.currentNode == old(reg.currentNode)
      ensures TableFor(reg.resources, meshTable, Traversal(models, false))
      ensures ObjectDataSet(reg.resources, objectDataBindingSet, meshBuffer, meshTable, Implicit)
    {
      var t := EmptyTable;
      var i := 0;
      while i < |models|
        invariant 0 <= i <= |models|
        invariant reg.Valid() && Extends(old(reg.resources), reg.resources)
        invariant reg.published == old(reg.published) && reg.currentNode == old(reg.currentNode)
        invariant TableFor(reg.resources, t, Traversal(models[..i], false))
      {
        ghost var before := reg.resources;
        OwnMeshesTraversed(models, i);
        t := AddModel(reg, models, i, t);
        ExtendsTransitive(old(reg.resources), before, reg.resources);
        i := i + 1;
      }
      assert models[..i] == models;
      ghost var r2 := reg.resources;
      var mb := reg.CreateBuffer(StorageBuffer, GpuOptimal, Meshes(t.rtMeshes));
      var bs := reg.CreateBindingSet(ObjectDataBindings(mb, t, Implicit));
      RowsForExtends(r2, reg.resources, t, Traversal(models, false));
      meshTable := t;
      meshBuffer := mb;
      objectDataBindingSet := bs;
    }

    /** `constructFrame`: publishes the storage image, creates the time buffer
        and the miss shader's environment set, then looks up the scene TLAS
        and the camera. A missing TLAS or camera fails the frame, after the
        resources before it have been created and the image published. */
    method ConstructFrame(reg: Registry, accelStructures: string) returns (r: Result<FirstHitFrame>)
      requires reg.Valid() && (reg.currentNode, "image") !in reg.published
      modifies reg
      ensures reg.Valid() && Extends(old(reg.resources), reg.resources)
      ensures reg.currentNode == old(reg.currentNode)
      ensures (reg.currentNode, "image") in reg.published
      ensures reg.published == old(reg.published)[(reg.currentNode, "image") := reg.published[(reg.currentNode, "image")]]
      ensures var tlas := reg.Lookup(accelStructures, "scene", TopLevelASKind);
        var camera := reg.Lookup(SceneNode, "camera", BufferKind);
        && (r.Failure? <==> tlas.None? || camera.None?)
        && (r.Failure? ==> r.error == if tlas.None? then MissingResource(accelStructures, "scene")
                                      else MissingResource(SceneNode, "camera"))
        && (r.Success? ==>
              && r.value.storageImage == reg.published[(reg.currentNode, "image")]
              && FrameBuilt(reg.resources, r.value, reg.windowExtent, objectDataBindingSet, tlas.value, camera.value)
              && reg.resources[r.value.timeBuffer].data == Uninitialized(TimeBufferSize)
              && EnvironmentOrWhite(reg.resources, r.value.environmentTexture, reg.Lookup(SceneNode, "environmentMap", TextureKind))
              && FreshLayout(r.value, |old(reg.resources)|)
              && |reg.resources| == r.value.rtState + 1)
      ensures reg.published[(reg.currentNode, "image")] == |old(reg.resources)|
    {
      var storageImage, timeBuffer, environment, environmentBindingSet := CreateFrameInputs(reg);
      ghost var r1 := reg.resources;
      var tlas := reg.Lookup(accelStructures, "scene", TopLevelASKind);
      var camera := reg.Lookup(SceneNode, "camera", BufferKind);
      if tlas.None? {
        return Failure(MissingResource(accelStructures, "scene"));
      }
      if camera.None? {
        return Failure(MissingResource(SceneNode, "camera"));
      }
      var frameBindingSet := reg.CreateBindingSet(FrameBindings(tlas.value, storageImage, camera.value, timeBuffer));
      var rtState := reg.CreateRayTracingState(FirstHitSbt, [frameBindingSet, objectDataBindingSet, environmentBindingSet], MaxRecursionDepth);
      FindStable(r1, reg.resources, reg.published, SceneNode, "environmentMap", TextureKind);
      FindStable(r1, reg.resources, reg.published, SceneNode, "camera", BufferKind);
      FindStable(r1, reg.resources, reg.published, accelStructures, "scene", TopLevelASKind);
      r := Success(FirstHitFrame(storageImage, timeBuffer, environment, environmentBindingSet, frameBindingSet, rtState));
    }

    /** The creations of `constructFrame` before its lookups: the published
        storage image, the time buffer, the white pixel texture (created
        whether or not it is used) and the environment binding set. */
    method CreateFrameInputs(reg: Registry) returns (storageImage: Handle, timeBuffer: Handle, environment: Handle,
                                                     environmentBindingSet: Handle)
      requires reg.Valid() && (reg.currentNode, "image") !in reg.published
      modifies reg
      ensures reg.Valid() && Extends(old(reg.resources), reg.resources)
      ensures reg.currentNode == old(reg.currentNode)
      ensures reg.published == old(reg.published)[(reg.currentNode, "image") := storageImage]
      ensures storageImage < |reg.resources|
      ensures reg.resources[storageImage] == TextureResource(Texture(reg.windowExtent, Allocated(RGBA16F, DefaultMipmap, DefaultTextureUsage, DefaultWrap)))
      ensures timeBuffer < |reg.resources|
      ensures reg.resources[timeBuffer] == BufferResource(UniformBuffer, TransferOptimal, Uninitialized(TimeBufferSize))
      ensures environmentBindingSet < |reg.resources|
      ensures reg.resources[environmentBindingSet] == BindingSetResource([ShaderBinding(0, {RTMiss}, [environment], TextureSampler)])
      ensures EnvironmentOrWhite(reg.resources, environment, reg.Lookup(SceneNode, "environmentMap", TextureKind))
      ensures objectDataBindingSet == old(objectDataBindingSet)
      ensures storageImage == |old(reg.resources)| && timeBuffer == storageImage + 1
      ensures timeBuffer < environmentBindingSet && |reg.resources| == environmentBindingSet + 1
    {
      storageImage := reg.CreateTexture2D(reg.windowExtent, RGBA16F, DefaultMipmap, DefaultTextureUsage, DefaultWrap);
      reg.Publish("image", storageImage);
      ghost var r0 := reg.resources;
      timeBuffer := reg.CreateBuffer(UniformBuffer, TransferOptimal, Uninitialized(TimeBufferSize));
      var white := reg.CreatePixelTexture(White, true);
      var environmentMap := reg.Lookup(SceneNode, "environmentMap", TextureKind);
      environment := if environmentMap.Some? then environmentMap.value else white;
      ghost var r1 := reg.resources;
      environmentBindingSet := reg.CreateBindingSet([ShaderBinding(0, {RTMiss}, [environment], TextureSampler)]);
      FindStable(r1, reg.resources, reg.published, SceneNode, "environmentMap", TextureKind);
      ExtendsTransitive(old(reg.resources), r0, r1);
      ExtendsTransitive(old(reg.resources), r1, reg.resources);
      assert reg.resources[white] == r1[white];
    }

    /** The closure: writes the elapsed time into the time buffer (nothing
        else in the registry changes) and records the frame's commands. */
    method Execute(f: FirstHitFrame, reg: Registry, app: AppState) returns (cmds: seq<Command>)
      requires reg.Valid() && f.timeBuffer < |reg.resources| && reg.resources[f.timeBuffer].BufferResource?
      modifies reg
      ensures reg.Valid()
      ensures reg.resources == old(reg.resources)[f.timeBuffer := old(reg.resources)[f.timeBuffer].(data := FloatValue(app.elapsedTime))]
      ensures reg.published == old(reg.published) && reg.currentNode == old(reg.currentNode)
      ensures cmds == FrameCommands(f, objectDataBindingSet, app.windowExtent)
    {
      cmds := [SetRayTracingState(f.rtState), BindSet(f.frameBindingSet, 0)];
      var time := app.elapsedTime;
      reg.UpdateBufferData(f.timeBuffer, FloatValue(time));
      cmds := cmds + [BindSet(objectDataBindingSet, 1), BindSet(f.environmentBindingSet, 2), TraceRays(app.windowExtent)];
    }
  }

  /** A frame keeps everything `constructFrame` built: the closure's time
      update leaves the frame valid for the next execution and changes no
      other resource. */
  lemma TimeUpdateKeepsFrame(resources: seq<Resource>, f: FirstHitFrame, windowExtent: Extent2D, objectData: Handle,
                             tlas: Handle, camera: Handle, time: real)
    requires FrameBuilt(resources, f, windowExtent, objectData, tlas, camera)
    ensures var after := resources[f.timeBuffer := resources[f.timeBuffer].(data := FloatValue(time))];
      && FrameBuilt(after, f, windowExtent, objectData, tlas, camera)
      && after[f.timeBuffer].data == FloatValue(time)
      && forall h :: 0 <= h < |resources| && h != f.timeBuffer ==> after[h] == resources[h]
  {
  }
}
