/**
 * Backend-agnostic resource descriptions. The GPU objects themselves are
 * opaque; the model keeps what the render nodes ask the registry for, so that
 * a handle can be checked against the resource it stands for.
 */
module Resources {
  import opened Extent

  /** A non-owning reference to a registry-owned resource: its index in the registry's arena. */
  type Handle = nat

  /** Floating-point vectors and matrices are opaque values. */
  datatype Vec2 = Vec2(x: real, y: real)
  datatype Vec3 = Vec3(x: real, y: real, z: real)
  datatype Vec4 = Vec4(x: real, y: real, z: real, w: real)
  datatype Mat3 = Mat3(rows: seq<Vec3>)

  datatype TextureFormat = RGBA8 | RGBA16F | Depth32F
  /** `Default*` stands for a default argument the call site leaves out. */
  datatype Mipmap = DefaultMipmap | NoMipmap
  datatype TextureUsage = DefaultTextureUsage | StorageAndSample
  datatype WrapModes = DefaultWrap | ClampAllToEdge

  /** Where a texture's contents come from. */
  datatype TextureOrigin =
    | Allocated(format: TextureFormat, mipmap: Mipmap, usage: TextureUsage, wrap: WrapModes)
    /** A 1 x 1 texture of one colour (`createPixelTexture`). */
    | Pixel(color: Vec4, sRGB: bool)
    /** An image file (`loadTexture2D`). */
    | Loaded(path: string, sRGB: bool, generateMipmaps: bool)

  datatype Texture = Texture(extent: Extent2D, origin: TextureOrigin)

  /** An RT vertex: `vec4(position, 0)`, the normal multiplied by the mesh's
      local normal matrix (kept as the symbolic product), `vec4(texCoord, 0, 0)`. */
  datatype RTVertex = RTVertex(position: Vec4, normal: TransformedNormal, texCoord: Vec4)
  datatype TransformedNormal = NormalTimes(normalMatrix: Mat3, normal: Vec3)

  /** Per-mesh record read by the closest hit shader. */
  datatype RTMesh = RTMesh(objectId: int, baseColor: int)

  datatype BufferUsage = StorageBuffer | UniformBuffer
  datatype MemoryHint = GpuOptimal | TransferOptimal

  datatype BufferData =
    | Vertices(vertices: seq<RTVertex>)
    | Indices(indices: seq<nat>)
    | Meshes(meshes: seq<RTMesh>)
    /** Uninitialised storage of the given size in bytes. */
    | Uninitialized(size: nat)
    /** One float written by `updateData`. */
    | FloatValue(f: real)

  datatype ShaderStage = Compute | RTRayGen | RTClosestHit | RTMiss

  /** `ShaderBindingType`; `Implicit` where the call site lets the binding's
      constructor choose it, `SampledTextureArray` for an array of textures. */
  datatype BindingType = StorageImage | TextureSampler | StorageBufferBinding | Implicit | SampledTextureArray

  /** One entry of a binding set: slot, stages, bound resources (one, or an array), type. */
  datatype ShaderBinding = ShaderBinding(slot: nat, stages: set<ShaderStage>, bound: seq<Handle>, kind: BindingType)

  datatype ShaderBindingTable = ShaderBindingTable(rayGen: string, hitGroups: seq<string>, miss: seq<string>)

  datatype Resource =
    | TextureResource(texture: Texture)
    | BufferResource(usage: BufferUsage, hint: MemoryHint, data: BufferData)
    | BindingSetResource(bindings: seq<ShaderBinding>)
    | ComputeStateResource(shader: string, sets: seq<Handle>)
    | RayTracingStateResource(sbt: ShaderBindingTable, sets: seq<Handle>, maxRecursionDepth: nat)
    /** Built by a node outside this model; only looked up here. */
    | TopLevelASResource(id: nat)

  /** The typed getters of the registry. */
  datatype ResourceKind = TextureKind | BufferKind | TopLevelASKind

  predicate OfKind(r: Resource, kind: ResourceKind) {
    match kind
    case TextureKind => r.TextureResource?
    case BufferKind => r.BufferResource?
    case TopLevelASKind => r.TopLevelASResource?
  }

  /** The registry's arena only grows: every earlier handle still names the same resource. */
  ghost predicate Extends(before: seq<Resource>, after: seq<Resource>) {
    |before| <= |after| && forall h :: 0 <= h < |before| ==> after[h] == before[h]
  }

  lemma ExtendsTransitive(a: seq<Resource>, b: seq<Resource>, c: seq<Resource>)
    requires Extends(a, b) && Extends(b, c)
    ensures Extends(a, c)
  {
  }

  /** `handles[k]` names a resource equal to `expected[k]`, for every k. */
  ghost predicate Names(resources: seq<Resource>, handles: seq<Handle>, expected: seq<Resource>) {
    |handles| == |expected|
    && forall k :: 0 <= k < |handles| ==> handles[k] < |resources| && resources[handles[k]] == expected[k]
  }

  lemma NamesExtends(before: seq<Resource>, after: seq<Resource>, handles: seq<Handle>, expected: seq<Resource>)
    requires Names(before, handles, expected) && Extends(before, after)
    ensures Names(after, handles, expected)
  {
  }

  /** Recording one more created resource extends the correspondence. */
  lemma NamesAppend(before: seq<Resource>, after: seq<Resource>, handles: seq<Handle>, expected: seq<Resource>,
                    h: Handle, r: Resource)
    requires Names(before, handles, expected) && Extends(before, after)
    requires h < |after| && after[h] == r
    ensures Names(after, handles + [h], expected + [r])
  {
  }
}
