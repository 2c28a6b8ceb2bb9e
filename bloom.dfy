/**
 * The bloom node. At setup it builds a seven-level mip chain of downsample
 * and upsample textures below the forward pass's colour target, the binding
 * sets that wire neighbouring levels together, and a closure that, each frame,
 * copies the target into the chain, downsamples level by level, copies the bottom level
 * across, upsamples back to the top and (when enabled) blends the result into
 * the target.
 */
module BloomNode {
  import opened Extent
  import opened Resources
  import opened Wrappers
  import opened Commands
  import opened ResourceRegistry

  const ForwardNode := "forward"
  const NumDownsamples: nat := 6
  const NumLevels: nat := NumDownsamples + 1
  const LevelFormat := Allocated(RGBA16F, NoMipmap, DefaultTextureUsage, ClampAllToEdge)
  /** The workgroup size of every bloom dispatch. */
  const LocalSize := Extent3D(16, 16, 1)
  const DownsampleShader := "bloom/downsample.comp"
  const UpsampleShader := "bloom/upsample.comp"
  const BlendShader := "bloom/blend.comp"

  /** One level down the chain: both sides halved, rounding down. */
  function Half(e: Extent2D): Extent2D {
    Extent2D(e.width / 2, e.height / 2)
  }

  /** The extent of level `i` of a chain whose level 0 is `base`. */
  function LevelExtent(base: Extent2D, i: nat): Extent2D {
    if i == 0 then base else Half(LevelExtent(base, i - 1))
  }

  function Pow2(i: nat): (p: nat)
    ensures p >= 1
  {
    if i == 0 then 1 else 2 * Pow2(i - 1)
  }

  /** A positive multiple of `d` is at least `d`. */
  lemma MulAtLeast(d: int, k: int)
    requires d > 0 && k >= 1
    ensures d * k >= d
  {
    var j := k - 1;
    assert d * k == d * j + d;
    assert d * j >= 0;
  }

  /** Quotients are unique: a witness of `a == d * q + r` with a remainder in range is `a / d`. */
  lemma DivUnique(a: int, d: int, q: int, r: int)
    requires d > 0 && a == d * q + r && 0 <= r < d
    ensures a / d == q
  {
    var q', r' := a / d, a % d;
    assert a == d * q' + r';
    if q' > q {
      assert d * (q' - q) == d * q' - d * q;
      MulAtLeast(d, q' - q);
    } else if q' < q {
      assert d * (q - q') == d * q - d * q';
      MulAtLeast(d, q - q');
    }
  }

  /** Halving after dividing by `m` is dividing by `2 * m`, rounding down once. */
  lemma DivDiv(a: nat, m: nat)
    requires m >= 1
    ensures a / m / 2 == a / (m * 2)
  {
    var q, r := a / m, a % m;
    var q2, r2 := q / 2, q % 2;
    var rest := m * r2 + r;
    assert a == m * q + r;
    assert q == 2 * q2 + r2;
    assert m * q == (m * 2) * q2 + m * r2;
    assert rest < m * 2 by {
      if r2 == 0 { assert m * r2 == 0; } else { assert m * r2 == m; }
    }
    DivUnique(a, m * 2, q2, rest);
  }

  /** Level `i` is the base extent divided by 2^i in each dimension, rounding down. */
  lemma {:induction false} LevelExtentClosedForm(base: Extent2D, i: nat)
    ensures LevelExtent(base, i).width as int == base.width as int / Pow2(i)
    ensures LevelExtent(base, i).height as int == base.height as int / Pow2(i)
  {
    if i > 0 {
      LevelExtentClosedForm(base, i - 1);
      DivDiv(base.width as int, Pow2(i - 1));
      DivDiv(base.height as int, Pow2(i - 1));
    }
  }

  /** Going down the chain never grows an extent. */
  lemma {:induction false} LevelExtentShrinks(base: Extent2D, i: nat, j: nat)
    requires i <= j
    ensures LevelExtent(base, j).width <= LevelExtent(base, i).width
    ensures LevelExtent(base, j).height <= LevelExtent(base, i).height
    decreases j - i
  {
    if i < j {
      LevelExtentShrinks(base, i, j - 1);
    }
  }

  /** The textures of levels 0 .. n-1. */
  ghost function LevelTextures(base: Extent2D, n: nat): seq<Resource> {
    seq(n, k requires 0 <= k < n => TextureResource(Texture(LevelExtent(base, k), LevelFormat)))
  }

  /** Downsample set j: writes level j+1 (slot 0) from level j (slot 1). */
  function DownsampleBindings(down: seq<Handle>, j: nat): seq<ShaderBinding>
    requires j + 1 < |down|
  {
    [ ShaderBinding(0, {Compute}, [down[j + 1]], StorageImage),
      ShaderBinding(1, {Compute}, [down[j]], StorageImage) ]
  }

  /** Upsample set j: writes upsample level j (slot 0) from upsample level
      j+1 (slot 1) and downsample level j (slot 2). */
  function UpsampleBindings(down: seq<Handle>, up: seq<Handle>, j: nat): seq<ShaderBinding>
    requires j + 1 < |up| && j < |down|
  {
    [ ShaderBinding(0, {Compute}, [up[j]], StorageImage),
      ShaderBinding(1, {Compute}, [up[j + 1]], StorageImage),
      ShaderBinding(2, {Compute}, [down[j]], StorageImage) ]
  }

  ghost function DownsampleSets(down: seq<Handle>, n: nat): seq<Resource>
    requires n < |down|
  {
    seq(n, j requires 0 <= j < n => BindingSetResource(DownsampleBindings(down, j)))
  }

  ghost function UpsampleSets(down: seq<Handle>, up: seq<Handle>, n: nat): seq<Resource>
    requires n < |up| && n <= |down|
  {
    seq(n, j requires 0 <= j < n => BindingSetResource(UpsampleBindings(down, up, j)))
  }

  /** The handles the frame closure captures. */
  datatype BloomFrame = BloomFrame(
    target: Handle,
    downsampleTextures: seq<Handle>, upsampleTextures: seq<Handle>,
    downsampleSets: seq<Handle>, upsampleSets: seq<Handle>,
    downsampleState: Handle, upsampleState: Handle,
    blendBindingSet: Handle, blendState: Handle)

  /** The list sizes the closure indexes with. */
  predicate Shaped(f: BloomFrame) {
    && |f.downsampleTextures| == NumLevels && |f.upsampleTextures| == NumLevels
    && |f.downsampleSets| == NumDownsamples && |f.upsampleSets| == NumDownsamples - 1
  }

  /** The frame's target is a texture of the registry. */
  ghost predicate HasTarget(resources: seq<Resource>, f: BloomFrame) {
    f.target < |resources| && resources[f.target].TextureResource?
  }

  /** The extent of the colour target, level 0 of the chain. */
  ghost function BaseExtent(resources: seq<Resource>, f: BloomFrame): Extent2D
    requires HasTarget(resources, f)
  {
    resources[f.target].texture.extent
  }

  /** Everything `constructFrame` builds below the target. */
  ghost predicate FrameValid(resources: seq<Resource>, f: BloomFrame) {
    && Shaped(f)
    && HasTarget(resources, f)
    && Names(resources, f.downsampleTextures, LevelTextures(BaseExtent(resources, f), NumLevels))
    && Names(resources, f.upsampleTextures, LevelTextures(BaseExtent(resources, f), NumLevels))
    && Names(resources, f.downsampleSets, DownsampleSets(f.downsampleTextures, NumDownsamples))
    && Names(resources, f.upsampleSets, UpsampleSets(f.downsampleTextures, f.upsampleTextures, NumDownsamples - 1))
    && f.downsampleState < |resources| && resources[f.downsampleState] == ComputeStateResource(DownsampleShader, f.downsampleSets)
    && f.upsampleState < |resources| && resources[f.upsampleState] == ComputeStateResource(UpsampleShader, f.upsampleSets)
    && f.blendBindingSet < |resources|
    && resources[f.blendBindingSet] == BindingSetResource(
         [ ShaderBinding(0, {Compute}, [f.target], StorageImage),
           ShaderBinding(1, {Compute}, [f.upsampleTextures[0]], StorageImage) ])
    && f.blendState < |resources| && resources[f.blendState] == ComputeStateResource(BlendShader, [f.blendBindingSet])
  }

  /** Every handle the frame created is a new arena slot, taken in creation
      order from `start` (levels, then sets, then the three states and the
      blend set), so no two of them coincide and none is the target. */
  predicate FreshLayout(f: BloomFrame, start: nat) {
    && Shaped(f) && f.target < start
    && (forall k :: 0 <= k < NumLevels ==> f.downsampleTextures[k] == start + 2 * k)
    && (forall k :: 0 <= k < NumLevels ==> f.upsampleTextures[k] == start + 2 * k + 1)
    && (forall k :: 0 <= k < NumDownsamples ==> f.downsampleSets[k] == start + 2 * NumLevels + 2 * k)
    && (forall k :: 0 <= k < NumDownsamples - 1 ==> f.upsampleSets[k] == start + 2 * NumLevels + 2 * k + 1)
    && f.downsampleState == start + 2 * NumLevels + 2 * NumDownsamples - 1
    && f.upsampleState == f.downsampleState + 1
    && f.blendBindingSet == f.downsampleState + 2
    && f.blendState == f.downsampleState + 3
  }

  /** The level loop: creates the downsample and upsample texture of every level. */
  method CreateLevels(reg: Registry, base: Extent2D) returns (down: seq<Handle>, up: seq<Handle>)
    requires reg.Valid()
    modifies reg
    ensures reg.Valid() && Extends(old(reg.resources), reg.resources)
    ensures reg.published == old(reg.published) && reg.currentNode == old(reg.currentNode)
    ensures Names(reg.resources, down, LevelTextures(base, NumLevels))
    ensures Names(reg.resources, up, LevelTextures(base, NumLevels))
    ensures |reg.resources| == |old(reg.resources)| + 2 * NumLevels
    ensures forall k :: 0 <= k < |down| ==> down[k] == |old(reg.resources)| + 2 * k
    ensures forall k :: 0 <= k < |up| ==> up[k] == |old(reg.resources)| + 2 * k + 1
  {
    down, up := [], [];
    var extent := base;
    var i := 0;
    while i < NumLevels
      invariant 0 <= i <= NumLevels
      invariant reg.Valid() && Extends(old(reg.resources), reg.resources)
      invariant reg.published == old(reg.published) && reg.currentNode == old(reg.currentNode)
      invariant extent == LevelExtent(base, i)
      invariant Names(reg.resources, down, LevelTextures(base, i))
      invariant Names(reg.resources, up, LevelTextures(base, i))
      invariant |reg.resources| == |old(reg.resources)| + 2 * i
      invariant forall k :: 0 <= k < |down| ==> down[k] == |old(reg.resources)| + 2 * k
      invariant forall k :: 0 <= k < |up| ==> up[k] == |old(reg.resources)| + 2 * k + 1
    {
      ghost var r0 := reg.resources;
      var downsampleTex := reg.CreateTexture2D(extent, RGBA16F, NoMipmap, DefaultTextureUsage, ClampAllToEdge);
      ghost var r1 := reg.resources;
      var upsampleTex := reg.CreateTexture2D(extent, RGBA16F, NoMipmap, DefaultTextureUsage, ClampAllToEdge);
      ghost var level := TextureResource(Texture(LevelExtent(base, i), LevelFormat));
      assert LevelTextures(base, i + 1) == LevelTextures(base, i) + [level];
      ExtendsTransitive(r0, r1, reg.resources);
      NamesAppend(r0, reg.resources, down, LevelTextures(base, i), downsampleTex, level);
      NamesAppend(r1, reg.resources, up, LevelTextures(base, i), upsampleTex, level);
      ExtendsTransitive(old(reg.resources), r0, reg.resources);
      down := down + [downsampleTex];
      up := up + [upsampleTex];
      extent := Extent2D(extent.width / 2, extent.height / 2);
      i := i + 1;
    }
  }

  /** The set loop: six downsample sets, and an upsample set for every level but the last. */
  method CreateSets(reg: Registry, down: seq<Handle>, up: seq<Handle>) returns (downSets: seq<Handle>, upSets: seq<Handle>)
    requires reg.Valid() && |down| == NumLevels && |up| == NumLevels
    modifies reg
    ensures reg.Valid() && Extends(old(reg.resources), reg.resources)
    ensures reg.published == old(reg.published) && reg.currentNode == old(reg.currentNode)
    ensures Names(reg.resources, downSets, DownsampleSets(down, NumDownsamples))
    ensures Names(reg.resources, upSets, UpsampleSets(down, up, NumDownsamples - 1))
    ensures |reg.resources| == |old(reg.resources)| + 2 * NumDownsamples - 1
    ensures forall k :: 0 <= k < |downSets| ==> downSets[k] == |old(reg.resources)| + 2 * k
    ensures forall k :: 0 <= k < |upSets| ==> upSets[k] == |old(reg.resources)| + 2 * k + 1
  {
    downSets, upSets := [], [];
    var i := 1;
    while i <= NumDownsamples
      invariant 1 <= i <= NumDownsamples + 1
      invariant reg.Valid() && Extends(old(reg.resources), reg.resources)
      invariant reg.published == old(reg.published) && reg.currentNode == old(reg.currentNode)
      invariant Names(reg.resources, downSets, DownsampleSets(down, i - 1))
      invariant Names(reg.resources, upSets, UpsampleSets(down, up, if i - 1 < NumDownsamples then i - 1 else NumDownsamples - 1))
      invariant |reg.resources| == |old(reg.resources)| + (if i - 1 < NumDownsamples then 2 * (i - 1) else 2 * NumDownsamples - 1)
      invariant forall k :: 0 <= k < |downSets| ==> downSets[k] == |old(reg.resources)| + 2 * k
      invariant forall k :: 0 <= k < |upSets| ==> upSets[k] == |old(reg.resources)| + 2 * k + 1
    {
      ghost var r0 := reg.resources;
      ghost var nUp := if i - 1 < NumDownsamples then i - 1 else NumDownsamples - 1;
      var downsampleSet := reg.CreateBindingSet(DownsampleBindings(down, i - 1));
      ghost var r1 := reg.resources;
      assert DownsampleSets(down, i) == DownsampleSets(down, i - 1) + [BindingSetResource(DownsampleBindings(down, i - 1))];
      NamesAppend(r0, r1, downSets, DownsampleSets(down, i - 1), downsampleSet,
                  BindingSetResource(DownsampleBindings(down, i - 1)));
      NamesExtends(r0, r1, upSets, UpsampleSets(down, up, nUp));
      downSets := downSets + [downsampleSet];
      if i != NumDownsamples {
        var upsampleSet := reg.CreateBindingSet(UpsampleBindings(down, up, i - 1));
        assert UpsampleSets(down, up, i) == UpsampleSets(down, up, i - 1) + [BindingSetResource(UpsampleBindings(down, up, i - 1))];
        NamesAppend(r1, reg.resources, upSets, UpsampleSets(down, up, i - 1), upsampleSet,
                    BindingSetResource(UpsampleBindings(down, up, i - 1)));
        NamesExtends(r1, reg.resources, downSets, DownsampleSets(down, i));
        ExtendsTransitive(r0, r1, reg.resources);
        upSets := upSets + [upsampleSet];
      }
      ExtendsTransitive(old(reg.resources), r0, reg.resources);
      i := i + 1;
    }
  }

  /** `constructFrame`: fails if the forward pass published no colour target;
      otherwise builds the chain, its sets and the three compute states. */
  method ConstructFrame(reg: Registry) returns (r: Result<BloomFrame>)
    requires reg.Valid()
    modifies reg
    ensures reg.Valid() && Extends(old(reg.resources), reg.resources)
    ensures reg.published == old(reg.published) && reg.currentNode == old(reg.currentNode)
    ensures r.Failure? <==> old(reg.Lookup(ForwardNode, "color", TextureKind)).None?
    ensures r.Failure? ==> r.error == MissingResource(ForwardNode, "color")
    ensures r.Success? ==>
      && r.value.target == old(reg.Lookup(ForwardNode, "color", TextureKind)).value
      && FrameValid(reg.resources, r.value)
      && BaseExtent(reg.resources, r.value) == old(reg.resources)[r.value.target].texture.extent
      && FreshLayout(r.value, |old(reg.resources)|)
      && |reg.resources| == r.value.blendState + 1
    ensures r.Failure? ==> reg.resources == old(reg.resources)
  {
    var targetTexture := reg.Lookup(ForwardNode, "color", TextureKind);
    if targetTexture.None? {
      return Failure(MissingResource(ForwardNode, "color"));
    }
    var target := targetTexture.value;
    var baseExtent := reg.resources[target].texture.extent;
    ghost var r0 := reg.resources;
    var down, up := CreateLevels(reg, baseExtent);
    ghost var r1 := reg.resources;
    var downSets, upSets := CreateSets(reg, down, up);
    ghost var r2 := reg.resources;
    var downsampleState := reg.CreateComputeState(DownsampleShader, downSets);
    var upsampleState := reg.CreateComputeState(UpsampleShader, upSets);
    var blendBindingSet := reg.CreateBindingSet(
      [ ShaderBinding(0, {Compute}, [target], StorageImage),
        ShaderBinding(1, {Compute}, [up[0]], StorageImage) ]);
    var blendState := reg.CreateComputeState(BlendShader, [blendBindingSet]);
    ExtendsTransitive(r0, r1, r2);
    ExtendsTransitive(r0, r2, reg.resources);
    ExtendsTransitive(r1, r2, reg.resources);
    NamesExtends(r1, reg.resources, down, LevelTextures(baseExtent, NumLevels));
    NamesExtends(r1, reg.resources, up, LevelTextures(baseExtent, NumLevels));
    NamesExtends(r2, reg.resources, downSets, DownsampleSets(down, NumDownsamples));
    NamesExtends(r2, reg.resources, upSets, UpsampleSets(down, up, NumDownsamples - 1));
    r := Success(BloomFrame(target, down, up, downSets, upSets, downsampleState, upsampleState,
                            blendBindingSet, blendState));
  }

  /** Downsample step i: write level i+1 from level i. */
  function DownsamplePass(f: BloomFrame, base: Extent2D, i: nat): seq<Command>
    requires i < |f.downsampleSets|
  {
    [BindSet(f.downsampleSets[i], 0), Dispatch(LevelExtent(base, i + 1), LocalSize), DebugBarrier]
  }

  /** Downsample steps 0 .. n-1, in increasing order. */
  function DownsamplePasses(f: BloomFrame, base: Extent2D, n: nat): seq<Command>
    requires n <= |f.downsampleSets|
  {
    if n == 0 then [] else DownsamplePasses(f, base, n - 1) + DownsamplePass(f, base, n - 1)
  }

  /** Upsample step i: write upsample level i. */
  function UpsamplePass(f: BloomFrame, base: Extent2D, i: nat): seq<Command>
    requires i < |f.upsampleSets|
  {
    [BindSet(f.upsampleSets[i], 0), Dispatch(LevelExtent(base, i), LocalSize), DebugBarrier]
  }

  /** Upsample steps NumDownsamples-2 down to `lo`, in decreasing order. */
  function UpsamplePasses(f: BloomFrame, base: Extent2D, lo: nat): seq<Command>
    requires Shaped(f) && lo <= NumDownsamples - 1
    decreases NumDownsamples - 1 - lo
  {
    if lo == NumDownsamples - 1 then [] else UpsamplePasses(f, base, lo + 1) + UpsamplePass(f, base, lo)
  }

  /** The blend pass, present iff bloom is enabled. */
  function BlendPass(f: BloomFrame, base: Extent2D, bloomBlend: real, enabled: bool): seq<Command> {
    if enabled then
      [SetComputeState(f.blendState), BindSet(f.blendBindingSet, 0), PushConstant(Compute, FloatConstant(bloomBlend), 0),
       Dispatch(base, LocalSize)]
    else []
  }

  /** The command list of one frame. */
  function BloomCommands(f: BloomFrame, base: Extent2D, blurRadius: real, bloomBlend: real, enabled: bool): seq<Command>
    requires Shaped(f)
  {
    [CopyTexture(f.target, f.downsampleTextures[0]), SetComputeState(f.downsampleState)]
    + DownsamplePasses(f, base, NumDownsamples)
    + [ CopyTexture(f.downsampleTextures[NumLevels - 1], f.upsampleTextures[NumLevels - 1]),
        SetComputeState(f.upsampleState),
        PushConstant(Compute, FloatConstant(blurRadius), 0) ]
    + UpsamplePasses(f, base, 0)
    + BlendPass(f, base, bloomBlend, enabled)
  }

  lemma {:induction false} DownsamplePassesShape(f: BloomFrame, base: Extent2D, n: nat)
    requires n <= |f.downsampleSets|
    ensures |DownsamplePasses(f, base, n)| == 3 * n
    ensures forall i :: 0 <= i < n ==>
      && DownsamplePasses(f, base, n)[3 * i] == BindSet(f.downsampleSets[i], 0)
      && DownsamplePasses(f, base, n)[3 * i + 1] == Dispatch(LevelExtent(base, i + 1), LocalSize)
      && DownsamplePasses(f, base, n)[3 * i + 2] == DebugBarrier
  {
    if n > 0 {
      DownsamplePassesShape(f, base, n - 1);
      var prev := DownsamplePasses(f, base, n - 1);
      assert DownsamplePasses(f, base, n) == prev + DownsamplePass(f, base, n - 1);
    }
  }

  /** Pass number k of the upsample loop (k = 0 first) writes level NumDownsamples-2-k. */
  lemma {:induction false} UpsamplePassesShape(f: BloomFrame, base: Extent2D, lo: nat)
    requires Shaped(f) && lo <= NumDownsamples - 1
    ensures |UpsamplePasses(f, base, lo)| == 3 * (NumDownsamples - 1 - lo)
    ensures forall k :: 0 <= k < NumDownsamples - 1 - lo ==>
      && UpsamplePasses(f, base, lo)[3 * k] == BindSet(f.upsampleSets[NumDownsamples - 2 - k], 0)
      && UpsamplePasses(f, base, lo)[3 * k + 1] == Dispatch(LevelExtent(base, NumDownsamples - 2 - k), LocalSize)
      && UpsamplePasses(f, base, lo)[3 * k + 2] == DebugBarrier
    decreases NumDownsamples - 1 - lo
  {
    if lo < NumDownsamples - 1 {
      UpsamplePassesShape(f, base, lo + 1);
    }
  }

  /** The frame's command list in five slices: the copy into the chain and
      the downsample state, the downsample passes, the copy across the bottom
      level with the upsample state and radius, the upsample passes, and the
      blend pass. */
  lemma BloomCommandsSlices(f: BloomFrame, base: Extent2D, blurRadius: real, bloomBlend: real, enabled: bool)
    requires Shaped(f)
    ensures var cmds := BloomCommands(f, base, blurRadius, bloomBlend, enabled);
      && |cmds| == 38 + |BlendPass(f, base, bloomBlend, enabled)|
      && cmds[..2] == [CopyTexture(f.target, f.downsampleTextures[0]), SetComputeState(f.downsampleState)]
      && cmds[2..20] == DownsamplePasses(f, base, NumDownsamples)
      && cmds[20..23] == [ CopyTexture(f.downsampleTextures[NumLevels - 1], f.upsampleTextures[NumLevels - 1]),
                           SetComputeState(f.upsampleState),
                           PushConstant(Compute, FloatConstant(blurRadius), 0) ]
      && cmds[23..38] == UpsamplePasses(f, base, 0)
      && cmds[38..] == BlendPass(f, base, bloomBlend, enabled)
  {
    DownsamplePassesShape(f, base, NumDownsamples);
    UpsamplePassesShape(f, base, 0);
    var head := [CopyTexture(f.target, f.downsampleTextures[0]), SetComputeState(f.downsampleState)];
    var downs := DownsamplePasses(f, base, NumDownsamples);
    var mid := [ CopyTexture(f.downsampleTextures[NumLevels - 1], f.upsampleTextures[NumLevels - 1]),
                 SetComputeState(f.upsampleState),
                 PushConstant(Compute, FloatConstant(blurRadius), 0) ];
    var ups := UpsamplePasses(f, base, 0);
    var blend := BlendPass(f, base, bloomBlend, enabled);
    var cmds := BloomCommands(f, base, blurRadius, bloomBlend, enabled);
    assert cmds == (((head + downs) + mid) + ups) + blend;
    assert cmds[..38] == ((head + downs) + mid) + ups;
    assert cmds[..23] == (head + downs) + mid;
    assert cmds[..20] == head + downs;
  }

  /** The first half of the frame: the copy into the chain, then six
      downsample steps writing levels 1 .. 6 in increasing order, then the copy
      across the bottom level, the upsample state and the blur radius. */
  lemma DownsampleOrder(f: BloomFrame, base: Extent2D, blurRadius: real, bloomBlend: real, enabled: bool)
    requires Shaped(f)
    ensures var cmds := BloomCommands(f, base, blurRadius, bloomBlend, enabled);
      && |cmds| == (if enabled then 42 else 38)
      && cmds[0] == CopyTexture(f.target, f.downsampleTextures[0])
      && cmds[1] == SetComputeState(f.downsampleState)
      && (forall i :: 0 <= i < NumDownsamples ==>
            && cmds[2 + 3 * i] == BindSet(f.downsampleSets[i], 0)
            && cmds[3 + 3 * i] == Dispatch(LevelExtent(base, i + 1), LocalSize)
            && cmds[4 + 3 * i] == DebugBarrier)
      && cmds[20] == CopyTexture(f.downsampleTextures[6], f.upsampleTextures[6])
      && cmds[21] == SetComputeState(f.upsampleState)
      && cmds[22] == PushConstant(Compute, FloatConstant(blurRadius), 0)
  {
    BloomCommandsSlices(f, base, blurRadius, bloomBlend, enabled);
    DownsamplePassesShape(f, base, NumDownsamples);
    var cmds := BloomCommands(f, base, blurRadius, bloomBlend, enabled);
    assert cmds[0] == cmds[..2][0] && cmds[1] == cmds[..2][1];
    assert cmds[20] == cmds[20..23][0] && cmds[21] == cmds[20..23][1] && cmds[22] == cmds[20..23][2];
    forall i | 0 <= i < NumDownsamples
      ensures cmds[2 + 3 * i] == cmds[2..20][3 * i]
      ensures cmds[3 + 3 * i] == cmds[2..20][3 * i + 1]
      ensures cmds[4 + 3 * i] == cmds[2..20][3 * i + 2]
    {
    }
  }

  /** The second half of the frame: five upsample steps writing levels 4 down
      to 0, then the blend of level 0 into the target exactly when enabled. */
  lemma UpsampleOrder(f: BloomFrame, base: Extent2D, blurRadius: real, bloomBlend: real, enabled: bool)
    requires Shaped(f)
    ensures var cmds := BloomCommands(f, base, blurRadius, bloomBlend, enabled);
      && |cmds| == (if enabled then 42 else 38)
      && (forall k :: 0 <= k < NumDownsamples - 1 ==>
            && cmds[23 + 3 * k] == BindSet(f.upsampleSets[4 - k], 0)
            && cmds[24 + 3 * k] == Dispatch(LevelExtent(base, 4 - k), LocalSize)
            && cmds[25 + 3 * k] == DebugBarrier)
      && (enabled ==> cmds[38..] == [ SetComputeState(f.blendState), BindSet(f.blendBindingSet, 0),
                                      PushConstant(Compute, FloatConstant(bloomBlend), 0),
                                      Dispatch(base, LocalSize) ])
  {
    BloomCommandsSlices(f, base, blurRadius, bloomBlend, enabled);
    UpsamplePassesShape(f, base, 0);
    var cmds := BloomCommands(f, base, blurRadius, bloomBlend, enabled);
    forall k | 0 <= k < NumDownsamples - 1
      ensures cmds[23 + 3 * k] == cmds[23..38][3 * k]
      ensures cmds[24 + 3 * k] == cmds[23..38][3 * k + 1]
      ensures cmds[25 + 3 * k] == cmds[23..38][3 * k + 2]
    {
    }
  }

  /** Every dispatch of `cmds` uses the 16 x 16 x 1 workgroup. */
  predicate DispatchesUseLocalSize(cmds: seq<Command>) {
    forall c :: c in cmds && c.Dispatch? ==> c.localSize == LocalSize
  }

  lemma {:induction false} DownsampleDispatches(f: BloomFrame, base: Extent2D, n: nat)
    requires n <= |f.downsampleSets|
    ensures DispatchesUseLocalSize(DownsamplePasses(f, base, n))
  {
    if n > 0 {
      DownsampleDispatches(f, base, n - 1);
      assert DownsamplePasses(f, base, n) == DownsamplePasses(f, base, n - 1) + DownsamplePass(f, base, n - 1);
    }
  }

  lemma {:induction false} UpsampleDispatches(f: BloomFrame, base: Extent2D, lo: nat)
    requires Shaped(f) && lo <= NumDownsamples - 1
    ensures DispatchesUseLocalSize(UpsamplePasses(f, base, lo))
    decreases NumDownsamples - 1 - lo
  {
    if lo < NumDownsamples - 1 {
      UpsampleDispatches(f, base, lo + 1);
      assert UpsamplePasses(f, base, lo) == UpsamplePasses(f, base, lo + 1) + UpsamplePass(f, base, lo);
    }
  }

  /** Every compute dispatch of a bloom frame uses the same workgroup size. */
  lemma BloomDispatchesUseLocalSize(f: BloomFrame, base: Extent2D, blurRadius: real, bloomBlend: real, enabled: bool)
    requires Shaped(f)
    ensures DispatchesUseLocalSize(BloomCommands(f, base, blurRadius, bloomBlend, enabled))
  {
    DownsampleDispatches(f, base, NumDownsamples);
    UpsampleDispatches(f, base, 0);
  }

  /** The bloom node's UI state. The source keeps it in statics of the
      closure, shared by every frame and every instance of the node; the model
      assumes a single instance and keeps it there. */
  class BloomNode {
    var enabled: bool
    var upsampleBlurRadius: real
    var bloomBlend: real

    constructor ()
      ensures enabled && upsampleBlurRadius == 0.001 && bloomBlend == 0.04
    {
      enabled := true;
      upsampleBlurRadius := 0.001;
      bloomBlend := 0.04;
    }

    /** The closure of `constructFrame`. The sliders, when moved, give the
        new radius and blend; a click on the checkbox toggles `enabled`.
        Dispatch sizes are read from the textures the passes write. */
    method Execute(f: BloomFrame, reg: Registry, blurSlider: Option<real>, clickEnabled: bool, blendSlider: Option<real>)
      returns (cmds: seq<Command>)
      requires FrameValid(reg.resources, f)
      modifies this
      ensures upsampleBlurRadius == (if blurSlider.Some? then blurSlider.value else old(upsampleBlurRadius))
      ensures enabled == (old(enabled) != clickEnabled)
      ensures bloomBlend == (if enabled && blendSlider.Some? then blendSlider.value else old(bloomBlend))
      ensures cmds == BloomCommands(f, BaseExtent(reg.resources, f), upsampleBlurRadius, bloomBlend, enabled)
    {
      var resources := reg.resources;
      var head := [CopyTexture(f.target, f.downsampleTextures[0]), SetComputeState(f.downsampleState)];
      var downs := RecordDownsamplePasses(f, resources, BaseExtent(resources, f));
      var bottomLevel := NumLevels - 1;
      if blurSlider.Some? {
        upsampleBlurRadius := blurSlider.value;
      }
      var mid := [ CopyTexture(f.downsampleTextures[bottomLevel], f.upsampleTextures[bottomLevel]),
                   SetComputeState(f.upsampleState),
                   PushConstant(Compute, FloatConstant(upsampleBlurRadius), 0) ];
      var ups := RecordUpsamplePasses(f, resources, BaseExtent(resources, f));
      if clickEnabled {
        enabled := !enabled;
      }
      var blend := [];
      if enabled {
        if blendSlider.Some? {
          bloomBlend := blendSlider.value;
        }
        blend := [ SetComputeState(f.blendState), BindSet(f.blendBindingSet, 0),
                   PushConstant(Compute, FloatConstant(bloomBlend), 0),
                   Dispatch(resources[f.target].texture.extent, Extent3D(16, 16, 1)) ];
      }
      cmds := head + downs + mid + ups + blend;
    }
  }

  /** The downsample loop of the closure: level i+1 is written from level i. */
  method RecordDownsamplePasses(f: BloomFrame, resources: seq<Resource>, ghost base: Extent2D) returns (cmds: seq<Command>)
    requires Shaped(f) && Names(resources, f.downsampleTextures, LevelTextures(base, NumLevels))
    ensures cmds == DownsamplePasses(f, base, NumDownsamples)
  {
    var localSizeForComp := Extent3D(16, 16, 1);
    cmds := [];
    var i := 0;
    while i < NumDownsamples
      invariant 0 <= i <= NumDownsamples
      invariant cmds == DownsamplePasses(f, base, i)
    {
      var targetTexture := f.downsampleTextures[i + 1];
      assert resources[targetTexture] == LevelTextures(base, NumLevels)[i + 1];
      cmds := cmds + [BindSet(f.downsampleSets[i], 0), Dispatch(resources[targetTexture].texture.extent, localSizeForComp), DebugBarrier];
      i := i + 1;
    }
  }

  /** The upsample loop of the closure: upsample levels 4 down to 0. */
  method RecordUpsamplePasses(f: BloomFrame, resources: seq<Resource>, ghost base: Extent2D) returns (cmds: seq<Command>)
    requires Shaped(f) && Names(resources, f.upsampleTextures, LevelTextures(base, NumLevels))
    ensures cmds == UpsamplePasses(f, base, 0)
  {
    var localSizeForComp := Extent3D(16, 16, 1);
    cmds := [];
    var i: int := NumDownsamples - 2;
    while i >= 0
      invariant -1 <= i <= NumDownsamples - 2
      invariant cmds == UpsamplePasses(f, base, i + 1)
    {
      var targetTexture := f.upsampleTextures[i];
      assert resources[targetTexture] == LevelTextures(base, NumLevels)[i];
      cmds := cmds + [BindSet(f.upsampleSets[i], 0), Dispatch(resources[targetTexture].texture.extent, localSizeForComp), DebugBarrier];
      i := i - 1;
    }
  }
}
