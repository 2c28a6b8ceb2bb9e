/**
 * How the nodes meet through the registry: a producer publishes under its
 * node name, and a consumer looking up that (node, label) pair finds what was
 * published. The G-buffer node is the producer the diffuse GI node reads.
 */
module NodeWiring {
  import opened Extent
  import opened Resources
  import opened Wrappers
  import opened ResourceRegistry
  import G = GBufferNode
  import GI = RTDiffuseGINode

  /** The producer name the GI node asks for is the G-buffer node's own name. */
  method GBufferName() returns (n: string)
    ensures n == GI.GBufferNode
  {
    n := G.Name();
  }

  /** On any registry on which the G-buffer node has not yet published: the
      G-buffer node's frame, followed by the GI node's lookups of the first
      three entries it requires. Every one finds a new texture the G-buffer
      created (base colour, normal, depth, in the GI node's order), the three
      are distinct, and so the GI node's setup cannot fail on a G-buffer entry. */
  method GBufferFeedsDiffuseGI(reg: Registry, sceneUniform: string, accelStructures: string)
    returns (g: G.GBuffer, found: seq<Option<Handle>>)
    requires reg.Valid()
    requires (G.NodeName, "normal") !in reg.published && (G.NodeName, "depth") !in reg.published
    requires (G.NodeName, "baseColor") !in reg.published
    modifies reg
    ensures reg.Valid() && reg.currentNode == GI.NodeName
    ensures found == [Some(g.baseColor), Some(g.normal), Some(g.depth)]
    ensures forall k :: 0 <= k < 3 ==>
      var e := GI.Required(sceneUniform, accelStructures)[k];
      found[k] == Find(reg.resources, reg.published, e.0, e.1, e.2)
    ensures GI.AllFound(reg.resources, reg.published, GI.Required(sceneUniform, accelStructures)[..3])
    ensures |old(reg.resources)| <= g.normal && g.normal < g.depth < g.baseColor < |reg.resources|
  {
    reg.BeginNode(G.Name());
    ghost var p0 := reg.published;
    var cmds;
    g, cmds := G.ConstructFrame(reg);
    G.OutputsFound(reg.resources, p0, g);
    reg.BeginNode(GI.NodeName);
    var req := GI.Required(sceneUniform, accelStructures);
    var baseColor := reg.Lookup(req[0].0, req[0].1, req[0].2);
    var normal := reg.Lookup(req[1].0, req[1].1, req[1].2);
    var depth := reg.Lookup(req[2].0, req[2].1, req[2].2);
    found := [baseColor, normal, depth];
  }
}
