/**
 * The per-graph resource namespace the render nodes create resources through.
 * It owns an arena of resources (a handle is an index into it, valid until the
 * registry is torn down; nothing is ever removed) and a table of named entries
 * `(producer node, entry name) -> handle` filled by `publish`.
 */
module ResourceRegistry {
  import opened Extent
  import opened Resources
  import opened Wrappers

  /** The named entry `(producer, name)` in a registry state, if published
      and of the asked kind. */
  function Find(resources: seq<Resource>, published: map<(string, string), Handle>,
                producer: string, name: string, kind: ResourceKind): Option<Handle>
  {
    var key := (producer, name);
    if key in published && published[key] < |resources| && OfKind(resources[published[key]], kind) then
      Some(published[key])
    else
      None
  }

  class Registry {
    /** Every resource created so far, in creation order. */
    var resources: seq<Resource>
    /** The named entries published so far. */
    var published: map<(string, string), Handle>
    /** The node whose construction phase is running: the producer `publish` records. */
    var currentNode: string
    /** The extent of `windowRenderTarget()`. */
    const windowExtent: Extent2D

    /** Every published entry names a resource of the arena. */
    ghost predicate Valid()
      reads this
    {
      forall key | key in published :: published[key] < |resources|
    }

    constructor (windowExtent: Extent2D)
      ensures Valid()
      ensures resources == [] && published == map[] && currentNode == ""
      ensures this.windowExtent == windowExtent
    {
      resources := [];
      published := map[];
      currentNode := "";
      this.windowExtent := windowExtent;
    }

    /** The graph announces the node whose construction phase runs next. */
    method BeginNode(name: string)
      requires Valid()
      modifies this
      ensures Valid()
      ensures currentNode == name
      ensures resources == old(resources) && published == old(published)
    {
      currentNode := name;
    }

    method Add(r: Resource) returns (h: Handle)
      requires Valid()
      modifies this
      ensures Valid()
      ensures resources == old(resources) + [r] && h == |old(resources)|
      ensures published == old(published) && currentNode == old(currentNode)
    {
      h := |resources|;
      resources := resources + [r];
    }

    /** `createTexture2D`: a new texture owned by the registry. */
    method CreateTexture2D(extent: Extent2D, format: TextureFormat, mipmap: Mipmap, usage: TextureUsage, wrap: WrapModes)
      returns (h: Handle)
      requires Valid()
      modifies this
      ensures Valid()
      ensures resources == old(resources) + [TextureResource(Texture(extent, Allocated(format, mipmap, usage, wrap)))]
      ensures h == |old(resources)|
      ensures published == old(published) && currentNode == old(currentNode)
    {
      h := Add(TextureResource(Texture(extent, Allocated(format, mipmap, usage, wrap))));
    }

    /** `createBuffer`: a new buffer with the given contents. */
    method CreateBuffer(usage: BufferUsage, hint: MemoryHint, data: BufferData) returns (h: Handle)
      requires Valid()
      modifies this
      ensures Valid()
      ensures resources == old(resources) + [BufferResource(usage, hint, data)] && h == |old(resources)|
      ensures published == old(published) && currentNode == old(currentNode)
    {
      h := Add(BufferResource(usage, hint, data));
    }

    /** `createBindingSet`. */
    method CreateBindingSet(bindings: seq<ShaderBinding>) returns (h: Handle)
      requires Valid()
      modifies this
      ensures Valid()
      ensures resources == old(resources) + [BindingSetResource(bindings)] && h == |old(resources)|
      ensures published == old(published) && currentNode == old(currentNode)
    {
      h := Add(BindingSetResource(bindings));
    }

    /** `createComputeState`. */
    method CreateComputeState(shader: string, sets: seq<Handle>) returns (h: Handle)
      requires Valid()
      modifies this
      ensures Valid()
      ensures resources == old(resources) + [ComputeStateResource(shader, sets)] && h == |old(resources)|
      ensures published == old(published) && currentNode == old(currentNode)
    {
      h := Add(ComputeStateResource(shader, sets));
    }

    /** `createRayTracingState`. */
    method CreateRayTracingState(sbt: ShaderBindingTable, sets: seq<Handle>, maxRecursionDepth: nat) returns (h: Handle)
      requires Valid()
      modifies this
      ensures Valid()
      ensures resources == old(resources) + [RayTracingStateResource(sbt, sets, maxRecursionDepth)]
      ensures h == |old(resources)|
      ensures published == old(published) && currentNode == old(currentNode)
    {
      h := Add(RayTracingStateResource(sbt, sets, maxRecursionDepth));
    }

    /** `createPixelTexture`: a 1 x 1 texture of the colour. Whether an equal
        earlier request is served from a cache is left open: the result is some
        handle naming such a texture, and no earlier handle changes. */
    method CreatePixelTexture(color: Vec4, sRGB: bool) returns (h: Handle)
      requires Valid()
      modifies this
      ensures Valid()
      ensures Extends(old(resources), resources)
      ensures h < |resources| && resources[h] == TextureResource(Texture(Extent2D(1, 1), Pixel(color, sRGB)))
      ensures published == old(published) && currentNode == old(currentNode)
    {
      h := Add(TextureResource(Texture(Extent2D(1, 1), Pixel(color, sRGB))));
    }

    /** `loadTexture2D`: the texture of an image file, whose decoded size is
        `imageExtent`. Caching by path is left open as for pixel textures. */
    method LoadTexture2D(path: string, sRGB: bool, generateMipmaps: bool, imageExtent: Extent2D) returns (h: Handle)
      requires Valid()
      modifies this
      ensures Valid()
      ensures Extends(old(resources), resources)
      ensures h < |resources| && resources[h] == TextureResource(Texture(imageExtent, Loaded(path, sRGB, generateMipmaps)))
      ensures published == old(published) && currentNode == old(currentNode)
    {
      h := Add(TextureResource(Texture(imageExtent, Loaded(path, sRGB, generateMipmaps))));
    }

    /** `publish`: records `(current node, name) -> h`. Publishing a name twice
        from the same node is a programming error the caller must not commit. */
    method Publish(name: string, h: Handle)
      requires Valid() && h < |resources|
      requires (currentNode, name) !in published
      modifies this
      ensures Valid()
      ensures published == old(published)[(currentNode, name) := h]
      ensures resources == old(resources) && currentNode == old(currentNode)
    {
      published := published[(currentNode, name) := h];
    }

    /** `getTexture` / `getBuffer` / `getTopLevelAccelerationStructure`: the
        entry `(producer, name)` if it was published and is of the asked kind. */
    function Lookup(producer: string, name: string, kind: ResourceKind): (r: Option<Handle>)
      requires Valid()
      reads this
      ensures r.Some? <==> (producer, name) in published && OfKind(resources[published[(producer, name)]], kind)
      ensures r.Some? ==> r.value == published[(producer, name)] && r.value < |resources|
      ensures r == Find(resources, published, producer, name, kind)
    {
      if (producer, name) in published && OfKind(resources[published[(producer, name)]], kind) then
        Some(published[(producer, name)])
      else
        None
    }

    /** `Buffer::updateData`: replaces a buffer's contents, nothing else. */
    method UpdateBufferData(h: Handle, data: BufferData)
      requires Valid() && h < |resources| && resources[h].BufferResource?
      modifies this
      ensures Valid()
      ensures resources == old(resources)[h := old(resources)[h].(data := data)]
      ensures published == old(published) && currentNode == old(currentNode)
    {
      resources := resources[h := resources[h].(data := data)];
    }
  }

  /** Creating resources does not change what a lookup resolves to: a
      published entry keeps naming the same resource once the arena grows. */
  lemma FindStable(before: seq<Resource>, after: seq<Resource>, published: map<(string, string), Handle>,
                   producer: string, name: string, kind: ResourceKind)
    requires Extends(before, after)
    requires forall key | key in published :: published[key] < |before|
    ensures Find(after, published, producer, name, kind) == Find(before, published, producer, name, kind)
  {
  }

  /** Publishing an entry makes a later lookup of it, from any node, resolve to
      exactly the published resource, and leaves every other entry's answer as it was. */
  lemma {:induction false} FindAfterPublish(resources: seq<Resource>, published: map<(string, string), Handle>,
                                            producer: string, name: string, h: Handle, kind: ResourceKind,
                                            otherProducer: string, otherName: string)
    requires h < |resources| && OfKind(resources[h], kind)
    ensures Find(resources, published[(producer, name) := h], producer, name, kind) == Some(h)
    ensures (otherProducer, otherName) != (producer, name) ==>
      Find(resources, published[(producer, name) := h], otherProducer, otherName, kind)
        == Find(resources, published, otherProducer, otherName, kind)
  {
  }
}
