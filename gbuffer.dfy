/**
 * The G-buffer node. At setup it allocates three window-sized textures
 * (normals, depth and base colour) and publishes them under the names the
 * ray-tracing nodes look up; its per-frame closure records no commands.
 */
module GBufferNode {
  import opened Resources
  import opened Commands
  import opened Wrappers
  import opened ResourceRegistry

  const NodeName := "g-buffer"

  function Name(): (n: string)
    ensures n == NodeName
  {
    "g-buffer"
  }

  /** The three published targets, in the order they are created. */
  datatype GBuffer = GBuffer(normal: Handle, depth: Handle, baseColor: Handle)

  /** A window-sized render target of the given format with default settings. */
  function Target(reg: Registry, format: TextureFormat): Resource
    reads reg
  {
    TextureResource(Texture(reg.windowExtent, Allocated(format, DefaultMipmap, DefaultTextureUsage, DefaultWrap)))
  }

  /** `constructFrame`: three new textures, each published under its name by
      the current node; the closure is empty. */
  method ConstructFrame(reg: Registry) returns (g: GBuffer, cmds: seq<Command>)
    requires reg.Valid()
    requires (reg.currentNode, "normal") !in reg.published
    requires (reg.currentNode, "depth") !in reg.published
    requires (reg.currentNode, "baseColor") !in reg.published
    modifies reg
    ensures reg.Valid() && reg.currentNode == old(reg.currentNode)
    ensures reg.resources == old(reg.resources)
                             + [Target(reg, RGBA16F), Target(reg, Depth32F), Target(reg, RGBA8)]
    ensures g == GBuffer(|old(reg.resources)|, |old(reg.resources)| + 1, |old(reg.resources)| + 2)
    ensures reg.published == old(reg.published)[(reg.currentNode, "normal") := g.normal]
                                               [(reg.currentNode, "depth") := g.depth]
                                               [(reg.currentNode, "baseColor") := g.baseColor]
    ensures cmds == []
  {
    var normalTexture := reg.CreateTexture2D(reg.windowExtent, RGBA16F, DefaultMipmap, DefaultTextureUsage, DefaultWrap);
    reg.Publish("normal", normalTexture);
    var depthTexture := reg.CreateTexture2D(reg.windowExtent, Depth32F, DefaultMipmap, DefaultTextureUsage, DefaultWrap);
    reg.Publish("depth", depthTexture);
    var baseColorTexture := reg.CreateTexture2D(reg.windowExtent, RGBA8, DefaultMipmap, DefaultTextureUsage, DefaultWrap);
    reg.Publish("baseColor", baseColorTexture);
    g := GBuffer(normalTexture, depthTexture, baseColorTexture);
    cmds := [];
  }

  /** After the G-buffer node has run as "g-buffer", looking up each of its
      outputs as a texture finds exactly the texture it created. */
  lemma OutputsFound(resources: seq<Resource>, published: map<(string, string), Handle>, g: GBuffer)
    requires g.normal < |resources| && g.depth < |resources| && g.baseColor < |resources|
    requires resources[g.normal].TextureResource? && resources[g.depth].TextureResource?
    requires resources[g.baseColor].TextureResource?
    ensures var p := published[(NodeName, "normal") := g.normal][(NodeName, "depth") := g.depth]
                              [(NodeName, "baseColor") := g.baseColor];
      && Find(resources, p, NodeName, "normal", TextureKind) == Some(g.normal)
      && Find(resources, p, NodeName, "depth", TextureKind) == Some(g.depth)
      && Find(resources, p, NodeName, "baseColor", TextureKind) == Some(g.baseColor)
  {
  }
}
