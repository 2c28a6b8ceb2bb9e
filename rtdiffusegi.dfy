/**
 * The ray-traced diffuse global illumination node `rt-diffuse-gi`.
 *
 * Construction builds a mesh table over every model's meshes followed by its
 * proxy's meshes, and an accumulation texture. At frame setup it resolves the
 * g-buffer, the scene uniforms and the two top-level acceleration structures,
 * builds one ray-tracing state per structure, publishes `diffuseGI`, and
 * returns a closure that traces one sample per pixel per frame into the
 * accumulation texture until `maxSamplesPerPixel` is reached, then averages it
 * into `diffuseGI`.
 */
module RTDiffuseGINode {
  import opened Extent
  import opened Resources
  import opened Wrappers
  import opened Commands
  import opened Scene
  import opened RTMeshTable
  import opened ResourceRegistry
  import opened Input

  const NodeName := "rt-diffuse-gi"
  const GBufferNode := "g-buffer"
  /** Samples traced per pixel by one frame of the closure. */
  const SamplesPerPass: int := 1

  /** The samples per pixel reached after `frames` accumulated frames. */
  function SamplesPerPixel(frames: int): (spp: int)
    ensures spp == frames
  {
    SamplesPerPass * frames
  }
  const MaxRecursionDepth := 2
  const White := Vec4(1.0, 1.0, 1.0, 1.0)

  /** GLFW key codes the closure polls. */
  const KeyO: nat := 79
  const KeyP: nat := 80
  const KeyR: nat := 82

  const GISbt := ShaderBindingTable("rt-diffuseGI/raygen.rgen",
                                    ["rt-diffuseGI/closestHit.rchit"],
                                    ["rt-diffuseGI/miss.rmiss", "rt-diffuseGI/shadow.rmiss"])
  const AverageShader := "common/averageAccum.comp"
  const AccumulationFormat := Allocated(RGBA16F, DefaultMipmap, StorageAndSample, DefaultWrap)

  /** The base-colour texture this node makes for a material: a linear 1 x 1
      texture of the colour factor when there is no image, otherwise the image
      loaded as sRGB with mipmaps. */
  function BaseColorTexture(material: Material): (t: Texture)
    ensures material.baseColorPath == [] <==> t.origin.Pixel?
    ensures material.baseColorPath == [] ==> t == Texture(Extent2D(1, 1), Pixel(material.baseColorFactor, false))
    ensures material.baseColorPath != [] ==>
      t.extent == material.baseColorImageExtent && t.origin.Loaded? && t.origin.path == material.baseColorPath
      && t.origin.sRGB && t.origin.generateMipmaps
  {
    if material.baseColorPath == [] then Texture(Extent2D(1, 1), Pixel(material.baseColorFactor, false))
    else Texture(material.baseColorImageExtent, Loaded(material.baseColorPath, true, true))
  }

  /** The table's rows for `meshes`, with each row's texture made from the mesh's material. */
  ghost predicate TableFor(resources: seq<Resource>, t: MeshTable, meshes: seq<Mesh>) {
    && RowsFor(resources, t, meshes)
    && forall k :: 0 <= k < |meshes| ==>
      t.textures[k] < |resources| && resources[t.textures[k]] == TextureResource(BaseColorTexture(meshes[k].material))
  }

  lemma TableForExtends(before: seq<Resource>, after: seq<Resource>, t: MeshTable, meshes: seq<Mesh>)
    requires TableFor(before, t, meshes) && Extends(before, after)
    ensures TableFor(after, t, meshes)
  {
    RowsForExtends(before, after, t, meshes);
  }

  /** `createTriangleMeshVertexBuffer`: appends the mesh's row to the table. */
  method AddMesh(reg: Registry, mesh: Mesh, t: MeshTable, ghost visited: seq<Mesh>) returns (t': MeshTable)
    requires reg.Valid() && WellFormed(mesh) && TableFor(reg.resources, t, visited)
    modifies reg
    ensures reg.Valid() && Extends(old(reg.resources), reg.resources)
    ensures reg.published == old(reg.published) && reg.currentNode == old(reg.currentNode)
    ensures TableFor(reg.resources, t', visited + [mesh])
  {
    ghost var before := reg.resources;
    var vertices := BuildVertices(mesh);
    var material := mesh.material;
    var tex: Handle;
    if material.baseColorPath == [] {
      tex := reg.CreatePixelTexture(material.baseColorFactor, false);
    } else {
      tex := reg.LoadTexture2D(material.baseColorPath, true, true, material.baseColorImageExtent);
    }
    ghost var mid := reg.resources;
    var vb := reg.CreateBuffer(StorageBuffer, GpuOptimal, Vertices(vertices));
    var ib := reg.CreateBuffer(StorageBuffer, GpuOptimal, Indices(mesh.indices));
    t' := MeshTable(t.vertexBuffers + [vb], t.indexBuffers + [ib], t.textures + [tex],
                    t.rtMeshes + [RTMesh(|t.rtMeshes|, |t.textures|)]);
    ExtendsTransitive(before, mid, reg.resources);
    TableForExtends(before, reg.resources, t, visited);
    AppendRow(before, reg.resources, t, visited, mesh, vb, ib, tex);
    assert reg.resources[tex] == mid[tex];
  }

  /** Adds the rows of `meshes` in order (one `forEachMesh`). */
  method AddMeshes(reg: Registry, meshes: seq<Mesh>, t: MeshTable, ghost visited: seq<Mesh>) returns (t': MeshTable)
    requires reg.Valid() && TableFor(reg.resources, t, visited)
    requires forall m | m in meshes :: WellFormed(m)
    modifies reg
    ensures reg.Valid() && Extends(old(reg.resources), reg.resources)
    ensures reg.published == old(reg.published) && reg.currentNode == old(reg.currentNode)
    ensures TableFor(reg.resources, t', visited + meshes)
  {
    t' := t;
    var j := 0;
    while j < |meshes|
      invariant 0 <= j <= |meshes|
      invariant reg.Valid() && Extends(old(reg.resources), reg.resources)
      invariant reg.published == old(reg.published) && reg.currentNode == old(reg.currentNode)
      invariant TableFor(reg.resources, t', visited + meshes[..j])
    {
      ghost var before := reg.resources;
      t' := AddMesh(reg, meshes[j], t', visited + meshes[..j]);
      ExtendsTransitive(old(reg.resources), before, reg.resources);
      assert visited + meshes[..j] + [meshes[j]] == visited + meshes[..j + 1];
      j := j + 1;
    }
    assert meshes[..j] == meshes;
  }

  /** Every mesh of a visited model, own or proxy, is among the traversed meshes. */
  lemma ModelMeshesTraversed(models: seq<Model>, i: nat)
    requires i < |models|
    ensures forall m | m in models[i].meshes :: m in Traversal(models, true)
    ensures forall m | m in models[i].proxyMeshes :: m in Traversal(models, true)
  {
    var prefix := Traversal(models[..i], true);
    var all := Traversal(models, true);
    forall j | 0 <= j < |models[i].meshes|
      ensures models[i].meshes[j] in all
    {
      TraversalPosition(models, i, j, true);
      assert all[|prefix| + j] in all;
    }
    forall j | 0 <= j < |models[i].proxyMeshes|
      ensures models[i].proxyMeshes[j] in all
    {
      TraversalPosition(models, i, j, true);
      assert all[|prefix| + |models[i].meshes| + j] in all;
    }
  }

  /** One `forEachModel` step: the model's meshes, then its proxy's meshes. */
  method AddModel(reg: Registry, models: seq<Model>, i: nat, t: MeshTable) returns (t': MeshTable)
    requires i < |models| && reg.Valid() && TableFor(reg.resources, t, Traversal(models[..i], true))
    requires forall m | m in Traversal(models, true) :: WellFormed(m)
    modifies reg
    ensures reg.Valid() && Extends(old(reg.resources), reg.resources)
    ensures reg.published == old(reg.published) && reg.currentNode == old(reg.currentNode)
    ensures TableFor(reg.resources, t', Traversal(models[..i + 1], true))
  {
    ModelMeshesTraversed(models, i);
    ghost var prefix := Traversal(models[..i], true);
    ghost var r0 := reg.resources;
    t' := AddMeshes(reg, models[i].meshes, t, prefix);
    ghost var r1 := reg.resources;
    t' := AddMeshes(reg, models[i].proxyMeshes, t', prefix + models[i].meshes);
    ExtendsTransitive(r0, r1, reg.resources);
    TraversalStep(models, i, true);
    assert prefix + models[i].meshes + models[i].proxyMeshes == Traversal(models[..i + 1], true);
  }

  /** The state the closure reads and updates across frames: the accumulated
      frame count and the three checkboxes. The checkboxes are statics of the
      closure, so every frame and every instance of the node shares them; the
      model assumes a single instance and keeps them in it. */
  datatype GIState = GIState(numAccumulatedFrames: int, doRender: bool, ignoreColor: bool, useProxies: bool)

  /** What a frame's input supplies: the checkbox clicks (each toggles its box),
      the O / P key presses, whether the camera moved, and whether R is held. */
  datatype FrameInput = FrameInput(
    clickRender: bool, clickIgnoreColor: bool, clickUseProxies: bool,
    pressedO: bool, pressedP: bool, cameraModified: bool, downR: bool)

  /** The handles `constructFrame` captures for the closure. */
  datatype GIFrame = GIFrame(
    frameBindingSet: Handle, rtState: Handle,
    frameBindingSetProxy: Handle, rtStateProxy: Handle,
    diffuseGI: Handle, avgAccumBindingSet: Handle, avgAccumState: Handle)

  /** The entries the frame needs, in the order it asks for them. */
  function Required(sceneUniform: string, accelStructures: string): seq<(string, string, ResourceKind)> {
    [ (GBufferNode, "baseColor", TextureKind),
      (GBufferNode, "normal", TextureKind),
      (GBufferNode, "depth", TextureKind),
      (accelStructures, "scene", TopLevelASKind),
      (sceneUniform, "camera", BufferKind),
      (sceneUniform, "environmentData", BufferKind),
      (sceneUniform, "directionalLight", BufferKind),
      (accelStructures, "proxy", TopLevelASKind) ]
  }

  ghost predicate AllFound(resources: seq<Resource>, published: map<(string, string), Handle>,
                           entries: seq<(string, string, ResourceKind)>) {
    forall i :: 0 <= i < |entries| ==> Find(resources, published, entries[i].0, entries[i].1, entries[i].2).Some?
  }

  /** `err` names the first of `entries` that is not found. */
  ghost predicate NamesFirstMissing(resources: seq<Resource>, published: map<(string, string), Handle>,
                                    err: SetupError, entries: seq<(string, string, ResourceKind)>) {
    exists i :: 0 <= i < |entries| && entries[i].0 == err.node && entries[i].1 == err.resourceLabel
      && Find(resources, published, entries[i].0, entries[i].1, entries[i].2).None?
      && AllFound(resources, published, entries[..i])
  }

  /** The resolved inputs of the frame; the environment map is optional. */
  datatype Inputs = Inputs(
    color: Handle, normal: Handle, depth: Handle,
    camera: Handle, environmentData: Handle, directionalLight: Handle,
    environmentMap: Option<Handle>, sceneTLAS: Handle, proxyTLAS: Handle)

  /** The inputs a registry state provides, if it provides all required ones. */
  ghost function Resolve(resources: seq<Resource>, published: map<(string, string), Handle>,
                         sceneUniform: string, accelStructures: string): (r: Option<Inputs>)
    ensures r.Some? <==> AllFound(resources, published, Required(sceneUniform, accelStructures))
  {
    var req := Required(sceneUniform, accelStructures);
    var f := (i: int) requires 0 <= i < |req| => Find(resources, published, req[i].0, req[i].1, req[i].2);
    if forall i :: 0 <= i < |req| ==> f(i).Some? then
      Some(Inputs(f(0).value, f(1).value, f(2).value, f(4).value, f(5).value, f(6).value,
                  Find(resources, published, sceneUniform, "environmentMap", TextureKind),
                  f(3).value, f(7).value))
    else
      None
  }

  /** The nine bindings of a frame binding set. */
  function FrameBindings(tlas: Handle, accumulation: Handle, inputs: Inputs, environmentMap: Handle): seq<ShaderBinding> {
    [ ShaderBinding(0, {RTRayGen, RTClosestHit}, [tlas], Implicit),
      ShaderBinding(1, {RTRayGen}, [accumulation], StorageImage),
      ShaderBinding(2, {RTRayGen}, [inputs.color], TextureSampler),
      ShaderBinding(3, {RTRayGen}, [inputs.normal], TextureSampler),
      ShaderBinding(4, {RTRayGen}, [inputs.depth], TextureSampler),
      ShaderBinding(5, {RTRayGen}, [inputs.camera], Implicit),
      ShaderBinding(6, {RTMiss}, [inputs.environmentData], Implicit),
      ShaderBinding(7, {RTMiss}, [environmentMap], Implicit),
      ShaderBinding(8, {RTClosestHit}, [inputs.directionalLight], Implicit) ]
  }

  /** Every handle the frame created is a new arena slot from `start` on, in
      creation order, so no two coincide and none is a resource that existed
      before `start`: each binding set is followed directly by
      its state, and the averaging pass directly follows the proxy state (the
      white pixel texture each state requests may or may not take a slot). */
  predicate FreshLayout(f: GIFrame, start: nat) {
    && start <= f.frameBindingSet && f.rtState == f.frameBindingSet + 1
    && f.rtState < f.frameBindingSetProxy && f.rtStateProxy == f.frameBindingSetProxy + 1
    && f.diffuseGI == f.rtStateProxy + 1
    && f.avgAccumBindingSet == f.diffuseGI + 1 && f.avgAccumState == f.diffuseGI + 2
  }

  /** The environment map bound at slot 7: the published one, or else a white sRGB pixel. */
  ghost predicate EnvironmentOrWhite(resources: seq<Resource>, bound: Handle, published: Option<Handle>) {
    match published
    case Some(h) => bound == h
    case None => bound < |resources| && resources[bound] == TextureResource(Texture(Extent2D(1, 1), Pixel(White, true)))
  }

  /** `bindingSet` / `rtState` are the pair `createStateForTLAS(tlas)` returns. */
  ghost predicate StateForTLAS(resources: seq<Resource>, bindingSet: Handle, rtState: Handle, tlas: Handle,
                               accumulation: Handle, objectData: Handle, inputs: Inputs) {
    && bindingSet < |resources| && rtState < |resources|
    && resources[bindingSet].BindingSetResource?
    && |resources[bindingSet].bindings| == 9 && |resources[bindingSet].bindings[7].bound| == 1
    && (var env := resources[bindingSet].bindings[7].bound[0];
        && resources[bindingSet] == BindingSetResource(FrameBindings(tlas, accumulation, inputs, env))
        && EnvironmentOrWhite(resources, env, inputs.environmentMap))
    && resources[rtState] == RayTracingStateResource(GISbt, [bindingSet, objectData], MaxRecursionDepth)
  }

  lemma StateForTLASExtends(before: seq<Resource>, after: seq<Resource>, bindingSet: Handle, rtState: Handle,
                            tlas: Handle, accumulation: Handle, objectData: Handle, inputs: Inputs)
    requires StateForTLAS(before, bindingSet, rtState, tlas, accumulation, objectData, inputs)
    requires Extends(before, after)
    ensures StateForTLAS(after, bindingSet, rtState, tlas, accumulation, objectData, inputs)
  {
  }

  /** Everything `constructFrame` builds, given the resolved inputs. */
  ghost predicate FrameBuilt(resources: seq<Resource>, f: GIFrame, inputs: Inputs, accumulation: Handle,
                             objectData: Handle, windowExtent: Extent2D) {
    && StateForTLAS(resources, f.frameBindingSet, f.rtState, inputs.sceneTLAS, accumulation, objectData, inputs)
    && StateForTLAS(resources, f.frameBindingSetProxy, f.rtStateProxy, inputs.proxyTLAS, accumulation, objectData, inputs)
    && AveragePass(resources, f.diffuseGI, f.avgAccumBindingSet, f.avgAccumState, accumulation, windowExtent)
  }

  /** The published `diffuseGI` texture and the compute pass averaging the accumulation into it. */
  ghost predicate AveragePass(resources: seq<Resource>, diffuseGI: Handle, bindingSet: Handle, state: Handle,
                              accumulation: Handle, windowExtent: Extent2D) {
    && diffuseGI < |resources| && bindingSet < |resources| && state < |resources|
    && resources[diffuseGI] == TextureResource(Texture(windowExtent, AccumulationFormat))
    && resources[bindingSet] == BindingSetResource(
         [ ShaderBinding(0, {Compute}, [accumulation], StorageImage),
           ShaderBinding(1, {Compute}, [diffuseGI], StorageImage) ])
    && resources[state] == ComputeStateResource(AverageShader, [bindingSet])
  }

  /**
   * Next value of the accumulation counter: a reset zeroes it, then one more
   * frame is counted when the samples reached BEFORE this frame are below the
   * cap. The cap test uses the pre-reset count, so a reset at the cap leaves 0.
   */
  function AccumulationStep(n: int, maxSamplesPerPixel: int, reset: bool): (m: int)
    ensures 0 <= n <= maxSamplesPerPixel ==> 0 <= m <= maxSamplesPerPixel
    ensures !reset && SamplesPerPixel(n) < maxSamplesPerPixel ==> m == n + 1
    ensures !reset && SamplesPerPixel(n) >= maxSamplesPerPixel ==> m == n
    ensures reset ==> m == (if SamplesPerPixel(n) < maxSamplesPerPixel then 1 else 0)
  {
    var base := if reset then 0 else n;
    if SamplesPerPixel(n) < maxSamplesPerPixel then base + 1 else base
  }

  /** The counter after `k` uninterrupted frames starting from `n`. */
  function Accumulate(n: int, maxSamplesPerPixel: int, k: nat): int {
    if k == 0 then n else AccumulationStep(Accumulate(n, maxSamplesPerPixel, k - 1), maxSamplesPerPixel, false)
  }

  /** Without resets the counter climbs by one per frame and stays at the cap. */
  lemma {:induction false} AccumulateSaturates(n: int, maxSamplesPerPixel: int, k: nat)
    requires 0 <= n <= maxSamplesPerPixel
    ensures Accumulate(n, maxSamplesPerPixel, k) == if n + k < maxSamplesPerPixel then n + k else maxSamplesPerPixel
  {
    if k > 0 {
      AccumulateSaturates(n, maxSamplesPerPixel, k - 1);
    }
  }

  /** The state a frame leaves: each checkbox click toggles its flag; a frame
      with rendering off records nothing and keeps the counter; otherwise P
      forces proxies on, O (without P) forces them off, and the counter takes
      one accumulation step, reset by a camera move or by holding R. */
  lemma FrameState(s: GIState, maxSamplesPerPixel: int, f: GIFrame, objectData: Handle, accumulation: Handle,
                   app: AppState, inp: FrameInput)
    ensures var r := FrameStep(s, maxSamplesPerPixel, f, objectData, accumulation, app, inp);
      && r.0.doRender == (s.doRender != inp.clickRender)
      && r.0.ignoreColor == (s.ignoreColor != inp.clickIgnoreColor)
      && (!r.0.doRender ==>
            && r.1 == []
            && r.0.numAccumulatedFrames == s.numAccumulatedFrames
            && r.0.useProxies == (s.useProxies != inp.clickUseProxies))
      && (r.0.doRender ==>
            && r.0.useProxies == (inp.pressedP || (!inp.pressedO && (s.useProxies != inp.clickUseProxies)))
            && r.0.numAccumulatedFrames
                 == AccumulationStep(s.numAccumulatedFrames, maxSamplesPerPixel, inp.cameraModified || inp.downR))
  {
  }

  /** A frame with rendering switched off only toggles the checkboxes. */
  lemma IdleFrame(s: GIState, maxSamplesPerPixel: int, f: GIFrame, objectData: Handle, accumulation: Handle,
                  app: AppState, inp: FrameInput)
    requires s.doRender == inp.clickRender
    ensures FrameStep(s, maxSamplesPerPixel, f, objectData, accumulation, app, inp)
      == (GIState(s.numAccumulatedFrames, false, s.ignoreColor != inp.clickIgnoreColor,
                  s.useProxies != inp.clickUseProxies), [])
  {
  }

  /** A rendering frame, unfolded: the head, then the accumulation block. */
  lemma RenderingFrame(s: GIState, maxSamplesPerPixel: int, f: GIFrame, objectData: Handle, accumulation: Handle,
                       app: AppState, inp: FrameInput)
    requires s.doRender != inp.clickRender
    ensures var useProxies := inp.pressedP || (!inp.pressedO && (s.useProxies != inp.clickUseProxies));
            var reset := inp.cameraModified || inp.downR;
      FrameStep(s, maxSamplesPerPixel, f, objectData, accumulation, app, inp)
        == (GIState(AccumulationStep(s.numAccumulatedFrames, maxSamplesPerPixel, reset), true,
                    s.ignoreColor != inp.clickIgnoreColor, useProxies),
            FrameHead(f, objectData, useProxies, s.ignoreColor != inp.clickIgnoreColor, app.frameIndex)
            + AccumulationBlock(f, accumulation, s.numAccumulatedFrames, maxSamplesPerPixel, reset, app.windowExtent))
  {
  }

  /** The commands before the accumulation block: select the state and frame
      set, bind the object data, push the two ray-generation constants and
      wait for / reset event 0. */
  function FrameHead(f: GIFrame, objectData: Handle, useProxies: bool, ignoreColor: bool, frameIndex: nat): seq<Command> {
    [ SetRayTracingState(if useProxies then f.rtStateProxy else f.rtState),
      BindSet(if useProxies then f.frameBindingSetProxy else f.frameBindingSet, 0),
      BindSet(objectData, 1),
      PushConstant(RTRayGen, BoolConstant(ignoreColor), 0),
      PushConstant(RTRayGen, IntConstant(frameIndex), 4),
      WaitEvent(0, if frameIndex == 0 then Host else RayTracing),
      ResetEvent(0, RayTracing) ]
  }

  /** The averaging pass and the signal closing the frame. */
  function AverageCommands(f: GIFrame, n: int, windowExtent: Extent2D): seq<Command> {
    [ DebugBarrier,
      SetComputeState(f.avgAccumState),
      BindSet(f.avgAccumBindingSet, 0),
      PushConstant(Compute, IntConstant(n), 0),
      Dispatch(windowExtent, Uniform3D(16)),
      SignalEvent(0, RayTracing) ]
  }

  /** The accumulation block of a frame that starts with `n` accumulated
      frames: an optional clear, an optional trace, then the averaging pass. */
  function AccumulationBlock(f: GIFrame, accumulation: Handle, n: int, maxSamplesPerPixel: int, reset: bool,
                             windowExtent: Extent2D): seq<Command> {
    (if reset then [ClearTexture(accumulation, Vec3(0.0, 0.0, 0.0))] else [])
    + (if SamplesPerPixel(n) < maxSamplesPerPixel then [TraceRays(windowExtent)] else [])
    + AverageCommands(f, AccumulationStep(n, maxSamplesPerPixel, reset), windowExtent)
  }

  /** The closure's effect on the state and the commands it records. */
  function FrameStep(s: GIState, maxSamplesPerPixel: int, f: GIFrame, objectData: Handle, accumulation: Handle,
                     app: AppState, inp: FrameInput): (GIState, seq<Command>)
  {
    var doRender := s.doRender != inp.clickRender;
    var ignoreColor := s.ignoreColor != inp.clickIgnoreColor;
    var boxProxies := s.useProxies != inp.clickUseProxies;
    if !doRender then
      (GIState(s.numAccumulatedFrames, doRender, ignoreColor, boxProxies), [])
    else
      var useProxies := if inp.pressedP then true else if inp.pressedO then false else boxProxies;
      var reset := inp.cameraModified || inp.downR;
      var n := AccumulationStep(s.numAccumulatedFrames, maxSamplesPerPixel, reset);
      var head := FrameHead(f, objectData, useProxies, ignoreColor, app.frameIndex);
      (GIState(n, doRender, ignoreColor, useProxies),
       head + AccumulationBlock(f, accumulation, s.numAccumulatedFrames, maxSamplesPerPixel, reset, app.windowExtent))
  }

  /** The commands of a rendering frame: state and set selection by the proxy
      choice, the two ray-generation constants, the event wait (on the host for
      the very first frame), a clear exactly on reset, a trace exactly while
      below the budget, then the averaging pass pushing the updated counter. */
  lemma FrameCommands(s: GIState, maxSamplesPerPixel: int, f: GIFrame, objectData: Handle, accumulation: Handle,
                      app: AppState, inp: FrameInput)
    requires s.doRender != inp.clickRender
    ensures var r := FrameStep(s, maxSamplesPerPixel, f, objectData, accumulation, app, inp);
      && |r.1| >= 12
      && r.1[0] == SetRayTracingState(if r.0.useProxies then f.rtStateProxy else f.rtState)
      && r.1[1] == BindSet(if r.0.useProxies then f.frameBindingSetProxy else f.frameBindingSet, 0)
      && r.1[2] == BindSet(objectData, 1)
      && r.1[3] == PushConstant(RTRayGen, BoolConstant(r.0.ignoreColor), 0)
      && r.1[4] == PushConstant(RTRayGen, IntConstant(app.frameIndex), 4)
      && r.1[5] == WaitEvent(0, if app.frameIndex == 0 then Host else RayTracing)
      && r.1[6] == ResetEvent(0, RayTracing)
      && (ClearTexture(accumulation, Vec3(0.0, 0.0, 0.0)) in r.1 <==> inp.cameraModified || inp.downR)
      && (TraceRays(app.windowExtent) in r.1 <==> SamplesPerPixel(s.numAccumulatedFrames) < maxSamplesPerPixel)
      && r.1[|r.1| - 6] == DebugBarrier
      && r.1[|r.1| - 5] == SetComputeState(f.avgAccumState)
      && r.1[|r.1| - 4] == BindSet(f.avgAccumBindingSet, 0)
      && r.1[|r.1| - 3] == PushConstant(Compute, IntConstant(r.0.numAccumulatedFrames), 0)
      && r.1[|r.1| - 2] == Dispatch(app.windowExtent, Uniform3D(16))
      && r.1[|r.1| - 1] == SignalEvent(0, RayTracing)
  {
  }

  /** A reset while the counter is at the cap leaves the counter at 0, traces
      nothing this frame and averages with a count of 0. */
  lemma ResetAtCapTracesNothing(s: GIState, maxSamplesPerPixel: int, f: GIFrame, objectData: Handle,
                                accumulation: Handle, app: AppState, inp: FrameInput)
    requires s.doRender != inp.clickRender
    requires inp.cameraModified || inp.downR
    requires s.numAccumulatedFrames >= maxSamplesPerPixel
    ensures var r := FrameStep(s, maxSamplesPerPixel, f, objectData, accumulation, app, inp);
      && r.0.numAccumulatedFrames == 0
      && TraceRays(app.windowExtent) !in r.1
      && r.1[|r.1| - 3] == PushConstant(Compute, IntConstant(0), 0)
  {
  }

  /** Pressing P selects the proxy structure whatever O and the checkbox say. */
  lemma PWinsOverO(s: GIState, maxSamplesPerPixel: int, f: GIFrame, objectData: Handle, accumulation: Handle,
                   app: AppState, inp: FrameInput)
    requires s.doRender != inp.clickRender && inp.pressedP
    ensures var r := FrameStep(s, maxSamplesPerPixel, f, objectData, accumulation, app, inp);
      r.0.useProxies && r.1[0] == SetRayTracingState(f.rtStateProxy)
  {
  }

  /** The lookups of `constructFrame`, in the order the node issues them:
      the first missing required entry aborts the frame's construction. */
  method ResolveInputs(reg: Registry, sceneUniform: string, accelStructures: string) returns (r: Result<Inputs>)
    requires reg.Valid()
    ensures r.Success? <==> AllFound(reg.resources, reg.published, Required(sceneUniform, accelStructures))
    ensures r.Failure? ==> NamesFirstMissing(reg.resources, reg.published, r.error, Required(sceneUniform, accelStructures))
    ensures r.Success? ==> Resolve(reg.resources, reg.published, sceneUniform, accelStructures) == Some(r.value)
    ensures r.Success? ==> r.value.environmentMap.Some? ==> r.value.environmentMap.value < |reg.resources|
  {
    ghost var req := Required(sceneUniform, accelStructures);
    var color := reg.Lookup(GBufferNode, "baseColor", TextureKind);
    if color.None? { assert req[0].0 == GBufferNode; return Failure(MissingResource(GBufferNode, "baseColor")); }
    var normal := reg.Lookup(GBufferNode, "normal", TextureKind);
    if normal.None? { assert req[1].0 == GBufferNode; return Failure(MissingResource(GBufferNode, "normal")); }
    var depth := reg.Lookup(GBufferNode, "depth", TextureKind);
    if depth.None? { assert req[2].0 == GBufferNode; return Failure(MissingResource(GBufferNode, "depth")); }
    var sceneTLAS := reg.Lookup(accelStructures, "scene", TopLevelASKind);
    if sceneTLAS.None? { assert req[3].0 == accelStructures; return Failure(MissingResource(accelStructures, "scene")); }
    var camera := reg.Lookup(sceneUniform, "camera", BufferKind);
    if camera.None? { assert req[4].0 == sceneUniform; return Failure(MissingResource(sceneUniform, "camera")); }
    var environmentData := reg.Lookup(sceneUniform, "environmentData", BufferKind);
    if environmentData.None? {
      assert req[5].0 == sceneUniform;
      return Failure(MissingResource(sceneUniform, "environmentData"));
    }
    var directionalLight := reg.Lookup(sceneUniform, "directionalLight", BufferKind);
    if directionalLight.None? {
      assert req[6].0 == sceneUniform;
      return Failure(MissingResource(sceneUniform, "directionalLight"));
    }
    var environmentMap := reg.Lookup(sceneUniform, "environmentMap", TextureKind);
    var proxyTLAS := reg.Lookup(accelStructures, "proxy", TopLevelASKind);
    if proxyTLAS.None? { assert req[7].0 == accelStructures; return Failure(MissingResource(accelStructures, "proxy")); }

    var inputs := Inputs(color.value, normal.value, depth.value, camera.value, environmentData.value,
                         directionalLight.value, environmentMap, sceneTLAS.value, proxyTLAS.value);
    assert AllFound(reg.resources, reg.published, req);
    r := Success(inputs);

  }

  class RTDiffuseGINode {
    /** The sample budget per pixel. */
    const maxSamplesPerPixel: int
    var objectDataBindingSet: Handle
    var accumulationTexture: Handle
    var numAccumulatedFrames: int
    var doRender: bool
    var ignoreColor: bool
    var useProxies: bool
    ghost var meshTable: MeshTable
    ghost var meshBuffer: Handle

    /** The counter never exceeds the budget. */
    ghost predicate Valid()
      reads this
    {
      0 <= numAccumulatedFrames <= maxSamplesPerPixel
    }

    function State(): GIState
      reads this
    {
      GIState(numAccumulatedFrames, doRender, ignoreColor, useProxies)
    }

    constructor (maxSamplesPerPixel: int)
      requires 0 <= maxSamplesPerPixel
      ensures Valid() && this.maxSamplesPerPixel == maxSamplesPerPixel
      ensures State() == GIState(0, true, false, false)
    {
      this.maxSamplesPerPixel := maxSamplesPerPixel;
      numAccumulatedFrames := 0;
      doRender := true;
      ignoreColor := false;
      useProxies := false;
    }

    /** `constructNode`: the mesh table over every model's meshes and then its
        proxy's meshes, the object-data binding set and the accumulation texture. */
    method ConstructNode(reg: Registry, models: seq<Model>, windowExtent: Extent2D)
      requires reg.Valid()
      requires forall m | m in Traversal(models, true) :: WellFormed(m)
      modifies this, reg
      ensures reg.Valid() && Extends(old(reg.resources), reg.resources)
      ensures reg.published == old(reg.published) && reg.currentNode == old(reg.currentNode)
      ensures State() == old(State()) && Valid() == old(Valid())
      ensures TableFor(reg.resources, meshTable, Traversal(models, true))
      ensures ObjectDataSet(reg.resources, objectDataBindingSet, meshBuffer, meshTable, StorageBufferBinding)
      ensures accumulationTexture < |reg.resources|
      ensures reg.resources[accumulationTexture] == TextureResource(Texture(windowExtent, AccumulationFormat))
    {
      var t := EmptyTable;
      var i := 0;
      while i < |models|
        invariant 0 <= i <= |models|
        invariant reg.Valid() && Extends(old(reg.resources), reg.resources)
        invariant reg.published == old(reg.published) && reg.currentNode == old(reg.currentNode)
        invariant TableFor(reg.resources, t, Traversal(models[..i], true))
        invariant unchanged(this)
      {
        ghost var before := reg.resources;
        t := AddModel(reg, models, i, t);
        ExtendsTransitive(old(reg.resources), before, reg.resources);
        i := i + 1;
      }
      assert models[..i] == models;
      ghost var r2 := reg.resources;
      var mb := reg.CreateBuffer(StorageBuffer, GpuOptimal, Meshes(t.rtMeshes));
      var bs := reg.CreateBindingSet(ObjectDataBindings(mb, t, StorageBufferBinding));
      var acc := reg.CreateTexture2D(windowExtent, RGBA16F, DefaultMipmap, StorageAndSample, DefaultWrap);
      TableForExtends(r2, reg.resources, t, Traversal(models, true));
      meshTable := t;
      meshBuffer := mb;
      objectDataBindingSet := bs;
      accumulationTexture := acc;
    }

    /** `createStateForTLAS`: the frame binding set for `tlas` and its ray-tracing state.
        The white fallback texture is requested whether or not it is used. */
    method CreateStateForTLAS(reg: Registry, tlas: Handle, inputs: Inputs) returns (bindingSet: Handle, rtState: Handle)
      requires reg.Valid()
      requires inputs.environmentMap.Some? ==> inputs.environmentMap.value < |reg.resources|
      modifies reg
      ensures reg.Valid() && Extends(old(reg.resources), reg.resources)
      ensures reg.published == old(reg.published) && reg.currentNode == old(reg.currentNode)
      ensures StateForTLAS(reg.resources, bindingSet, rtState, tlas, accumulationTexture, objectDataBindingSet, inputs)
      ensures |old(reg.resources)| <= bindingSet && rtState == bindingSet + 1 && |reg.resources| == rtState + 1
    {
      var white := reg.CreatePixelTexture(White, true);
      var env := if inputs.environmentMap.Some? then inputs.environmentMap.value else white;
      ghost var r0 := reg.resources;
      bindingSet := reg.CreateBindingSet(FrameBindings(tlas, accumulationTexture, inputs, env));
      rtState := reg.CreateRayTracingState(GISbt, [bindingSet, objectDataBindingSet], MaxRecursionDepth);
      assert reg.resources[white] == r0[white];
    }

    /** Creates and publishes `diffuseGI`, then the averaging set and state. */
    method CreateAveragePass(reg: Registry) returns (diffuseGI: Handle, bindingSet: Handle, state: Handle)
      requires reg.Valid()
      requires accumulationTexture < |reg.resources| && objectDataBindingSet < |reg.resources|
      requires (reg.currentNode, "diffuseGI") !in reg.published
      modifies reg
      ensures reg.Valid() && Extends(old(reg.resources), reg.resources) && reg.currentNode == old(reg.currentNode)
      ensures reg.published == old(reg.published)[(reg.currentNode, "diffuseGI") := diffuseGI]
      ensures AveragePass(reg.resources, diffuseGI, bindingSet, state, accumulationTexture, reg.windowExtent)
      ensures diffuseGI == |old(reg.resources)| && bindingSet == diffuseGI + 1 && state == diffuseGI + 2
      ensures |reg.resources| == state + 1
      ensures diffuseGI != accumulationTexture
    {
      diffuseGI := reg.CreateTexture2D(reg.windowExtent, RGBA16F, DefaultMipmap, StorageAndSample, DefaultWrap);
      reg.Publish("diffuseGI", diffuseGI);
      bindingSet := reg.CreateBindingSet(
        [ ShaderBinding(0, {Compute}, [accumulationTexture], StorageImage),
          ShaderBinding(1, {Compute}, [diffuseGI], StorageImage) ]);
      state := reg.CreateComputeState(AverageShader, [bindingSet]);
    }

    /** `constructFrame`: fails if a required entry is missing; otherwise builds
        both ray-tracing states, publishes `diffuseGI` and the averaging pass. */
    method ConstructFrame(reg: Registry, sceneUniform: string, accelStructures: string) returns (r: Result<GIFrame>)
      requires reg.Valid()
      requires accumulationTexture < |reg.resources| && objectDataBindingSet < |reg.resources|
      requires (reg.currentNode, "diffuseGI") !in reg.published
      modifies reg
      ensures reg.Valid() && Extends(old(reg.resources), reg.resources) && reg.currentNode == old(reg.currentNode)
      ensures r.Success? <==> AllFound(old(reg.resources), old(reg.published), Required(sceneUniform, accelStructures))
      ensures r.Failure? ==>
        reg.published == old(reg.published)
        && NamesFirstMissing(old(reg.resources), old(reg.published), r.error, Required(sceneUniform, accelStructures))
      ensures r.Success? ==>
        && reg.published == old(reg.published)[(reg.currentNode, "diffuseGI") := r.value.diffuseGI]
        && FrameBuilt(reg.resources, r.value,
                      Resolve(old(reg.resources), old(reg.published), sceneUniform, accelStructures).value,
                      accumulationTexture, objectDataBindingSet, reg.windowExtent)
        && FreshLayout(r.value, |old(reg.resources)|)
        && |reg.resources| == r.value.avgAccumState + 1
        && r.value.diffuseGI != accumulationTexture
      ensures r.Failure? ==> reg.resources == old(reg.resources)
    {
      ghost var res0 := reg.resources;
      var resolved := ResolveInputs(reg, sceneUniform, accelStructures);
      if resolved.Failure? {
        return Failure(resolved.error);
      }
      var inputs := resolved.value;
      var frameBindingSet, rtState := CreateStateForTLAS(reg, inputs.sceneTLAS, inputs);
      ghost var r1 := reg.resources;
      var frameBindingSetProxy, rtStateProxy := CreateStateForTLAS(reg, inputs.proxyTLAS, inputs);
      ghost var r2 := reg.resources;
      var diffuseGI, avgAccumBindingSet, avgAccumState := CreateAveragePass(reg);
      var f := GIFrame(frameBindingSet, rtState, frameBindingSetProxy, rtStateProxy,
                       diffuseGI, avgAccumBindingSet, avgAccumState);
      ExtendsTransitive(res0, r1, r2);
      ExtendsTransitive(res0, r2, reg.resources);
      ExtendsTransitive(r1, r2, reg.resources);
      StateForTLASExtends(r1, reg.resources, frameBindingSet, rtState, inputs.sceneTLAS,
                          accumulationTexture, objectDataBindingSet, inputs);
      StateForTLASExtends(r2, reg.resources, frameBindingSetProxy, rtStateProxy, inputs.proxyTLAS,
                          accumulationTexture, objectDataBindingSet, inputs);
      r := Success(f);
    }

    /** The closure of `constructFrame`, run once per frame. */
    method Execute(f: GIFrame, app: AppState, input: Input, clicks: (bool, bool, bool), cameraModified: bool)
      returns (cmds: seq<Command>)
      requires Valid() && input.Valid() && KeyR < input.keyCount
      modifies this
      ensures Valid()
      ensures objectDataBindingSet == old(objectDataBindingSet) && accumulationTexture == old(accumulationTexture)
      ensures (State(), cmds) == FrameStep(old(State()), maxSamplesPerPixel, f, objectDataBindingSet,
                                            accumulationTexture, app,
                                            FrameInput(clicks.0, clicks.1, clicks.2,
                                                       input.WasKeyPressed(KeyO), input.WasKeyPressed(KeyP),
                                                       cameraModified, input.IsKeyDown(KeyR)))
    {
      cmds := RecordFrame(f, app, input.WasKeyPressed(KeyO), input.WasKeyPressed(KeyP), input.IsKeyDown(KeyR), clicks, cameraModified);
    }

    /** The three checkboxes: a click toggles the box's flag. */
    method ApplyClicks(clicks: (bool, bool, bool))
      modifies this
      ensures objectDataBindingSet == old(objectDataBindingSet) && accumulationTexture == old(accumulationTexture)
      ensures State() == GIState(old(numAccumulatedFrames), old(doRender) != clicks.0,
                                 old(ignoreColor) != clicks.1, old(useProxies) != clicks.2)
    {
      doRender := doRender != clicks.0;
      ignoreColor := ignoreColor != clicks.1;
      useProxies := useProxies != clicks.2;
    }

    /** The O and P keys override the proxy checkbox, P taking precedence. */
    method SelectStructure(keyO: bool, keyP: bool)
      modifies this
      ensures objectDataBindingSet == old(objectDataBindingSet) && accumulationTexture == old(accumulationTexture)
      ensures State() == old(State()).(useProxies := keyP || (!keyO && old(useProxies)))
    {
      if keyO { useProxies := false; }
      if keyP { useProxies := true; }
    }

    /** The block of the closure that (re)starts, extends and averages the accumulation. */
    method AccumulateSamples(f: GIFrame, app: AppState, reset: bool) returns (cmds: seq<Command>)
      requires Valid()
      modifies this
      ensures Valid()
      ensures objectDataBindingSet == old(objectDataBindingSet) && accumulationTexture == old(accumulationTexture)
      ensures State() == old(State()).(numAccumulatedFrames :=
                AccumulationStep(old(numAccumulatedFrames), maxSamplesPerPixel, reset))
      ensures cmds == AccumulationBlock(f, accumulationTexture, old(numAccumulatedFrames), maxSamplesPerPixel, reset,
                                        app.windowExtent)
    {
      var currentSamplesPerPixel := SamplesPerPixel(numAccumulatedFrames);
      cmds := [];
      if reset {
        cmds := cmds + [ClearTexture(accumulationTexture, Vec3(0.0, 0.0, 0.0))];
        numAccumulatedFrames := 0;
      }
      if currentSamplesPerPixel < maxSamplesPerPixel {
        cmds := cmds + [TraceRays(app.windowExtent)];
        numAccumulatedFrames := numAccumulatedFrames + 1;
      }
      cmds := cmds + [ DebugBarrier,
                       SetComputeState(f.avgAccumState),
                       BindSet(f.avgAccumBindingSet, 0),
                       PushConstant(Compute, IntConstant(numAccumulatedFrames), 0),
                       Dispatch(app.windowExtent, Uniform3D(16)),
                       SignalEvent(0, RayTracing) ];
    }

    /** The closure's body once the O, P and R key states have been read. */
    method RecordFrame(f: GIFrame, app: AppState, keyO: bool, keyP: bool, keyR: bool, clicks: (bool, bool, bool), cameraModified: bool)
      returns (cmds: seq<Command>)
      requires Valid()
      modifies this
      ensures Valid()
      ensures objectDataBindingSet == old(objectDataBindingSet) && accumulationTexture == old(accumulationTexture)
      ensures (State(), cmds) == FrameStep(old(State()), maxSamplesPerPixel, f, objectDataBindingSet,
                                            accumulationTexture, app,
                                            FrameInput(clicks.0, clicks.1, clicks.2,
                                                       keyO, keyP, cameraModified, keyR))
    {
      ghost var s0 := State();
      ghost var inp := FrameInput(clicks.0, clicks.1, clicks.2, keyO, keyP, cameraModified, keyR);
      ApplyClicks(clicks);
      if !doRender {
        IdleFrame(s0, maxSamplesPerPixel, f, objectDataBindingSet, accumulationTexture, app, inp);
        return [];
      }
      SelectStructure(keyO, keyP);
      var head: seq<Command>;
      if useProxies {
        head := [SetRayTracingState(f.rtStateProxy), BindSet(f.frameBindingSetProxy, 0)];
      } else {
        head := [SetRayTracingState(f.rtState), BindSet(f.frameBindingSet, 0)];
      }
      head := head + [ BindSet(objectDataBindingSet, 1),
                       PushConstant(RTRayGen, BoolConstant(ignoreColor), 0),
                       PushConstant(RTRayGen, IntConstant(app.frameIndex), 4),
                       WaitEvent(0, if app.frameIndex == 0 then Host else RayTracing),
                       ResetEvent(0, RayTracing) ];
      assert head == FrameHead(f, objectDataBindingSet, useProxies, ignoreColor, app.frameIndex);
      var block := AccumulateSamples(f, app, cameraModified || keyR);
      cmds := head + block;
      RenderingFrame(s0, maxSamplesPerPixel, f, objectDataBindingSet, accumulationTexture, app, inp);
    }
  }
}
