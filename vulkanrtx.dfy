/**
 * The host-side helpers of the VK_NV_ray_tracing backend: the device
 * extension scan, the translation of geometry instances into the 64-byte
 * instance records of the VK_NV_ray_tracing extension (`VkGeometryInstanceNV`),
 * the create-info of the instance and scratch buffers, and the choice between
 * build and update scratch memory. The Vulkan and allocator calls themselves
 * are outside the model; their inputs are parameters (extension list,
 * acceleration-structure handles, the driver's scratch size).
 */
module VulkanRTX {
  const RayTracingExtensionName := "VK_NV_ray_tracing"
  const MemoryRequirements2ExtensionName := "VK_KHR_get_memory_requirements2"

  /** Buffer usage bits of the Vulkan specification (`VkBufferUsageFlagBits`). */
  const TransferSrcBit: bv32 := 0x1
  const TransferDstBit: bv32 := 0x2
  const RayTracingBit: bv32 := 0x400

  /** The byte size of one instance record: a 3x4 float matrix, two 32-bit
      words of bit fields and a 64-bit handle. */
  const GeometryInstanceSize: nat := 64

  /** Both extensions the backend needs are offered. */
  predicate Supported(extensions: seq<string>) {
    RayTracingExtensionName in extensions && MemoryRequirements2ExtensionName in extensions
  }

  /** `isSupportedOnPhysicalDevice`: scans the offered extensions, remembering
      which of the two it has seen, and stops as soon as it has seen both. */
  method IsSupportedOnPhysicalDevice(availableExtensions: seq<string>) returns (supported: bool)
    ensures supported <==> Supported(availableExtensions)
  {
    var rayTracing := false;
    var memRequirements2 := false;
    var i := 0;
    while i < |availableExtensions|
      invariant 0 <= i <= |availableExtensions|
      invariant rayTracing <==> RayTracingExtensionName in availableExtensions[..i]
      invariant memRequirements2 <==> MemoryRequirements2ExtensionName in availableExtensions[..i]
      invariant !(rayTracing && memRequirements2)
    {
      var extension := availableExtensions[i];
      if extension == RayTracingExtensionName {
        rayTracing := true;
      } else if extension == MemoryRequirements2ExtensionName {
        memRequirements2 := true;
      }
      assert availableExtensions[..i + 1] == availableExtensions[..i] + [extension];
      if rayTracing && memRequirements2 {
        assert availableExtensions[..i + 1] <= availableExtensions;
        return true;
      }
      i := i + 1;
    }
    assert availableExtensions[..i] == availableExtensions;
    return false;
  }

  /** The answer depends only on which names are offered, not on their order
      or repetition; in particular no device without extensions qualifies. */
  lemma SupportIgnoresOrder(a: seq<string>, b: seq<string>)
    requires multiset(a) == multiset(b)
    ensures Supported(a) <==> Supported(b)
    ensures !Supported([])
  {
    assert forall s :: s in a <==> s in multiset(a);
    assert forall s :: s in b <==> s in multiset(b);
  }

  /** A 4 x 4 matrix given by its four rows of four entries (`mat4`). */
  type Mat4 = m: seq<seq<real>> | |m| == 4 && forall i :: 0 <= i < |m| ==> |m[i]| == 4
    witness [[0.0, 0.0, 0.0, 0.0], [0.0, 0.0, 0.0, 0.0], [0.0, 0.0, 0.0, 0.0], [0.0, 0.0, 0.0, 0.0]]

  /** `transpose`: entry (i, j) of the result is entry (j, i) of `m`. */
  function Transpose(m: Mat4): (t: Mat4)
    ensures forall i, j :: 0 <= i < 4 && 0 <= j < 4 ==> t[i][j] == m[j][i]
  {
    seq(4, i requires 0 <= i < 4 => seq(4, j requires 0 <= j < 4 => m[j][i]))
  }

  /** Transposing twice gives the matrix back, so a record's matrix determines
      the instance's world matrix. */
  lemma TransposeInvolution(m: Mat4)
    ensures Transpose(Transpose(m)) == m
  {
    var t := Transpose(Transpose(m));
    forall i | 0 <= i < 4
      ensures t[i] == m[i]
    {
      assert forall j :: 0 <= j < 4 ==> t[i][j] == m[i][j];
    }
  }

  /** The part of `RTGeometryInstance` the record is built from. */
  datatype RTGeometryInstance = RTGeometryInstance(
    worldMatrix: Mat4, blasHandle: nat, customInstanceId: nat, hitMask: nat, shaderBindingTableOffset: nat)

  /** `VkGeometryInstanceNV`: the transposed world matrix, the 24-bit custom
      index, the 8-bit mask, the 24-bit hit group offset, the 8-bit flags and
      the bottom-level structure's handle. */
  datatype GeometryInstance = GeometryInstance(
    transform: Mat4, instanceId: nat, mask: nat, instanceOffset: nat, flags: nat,
    accelerationStructureHandle: nat)

  /** Assigning to a 24-bit unsigned bit field keeps the low 24 bits. */
  function LowBits24(x: nat): (t: nat)
    ensures t < 0x100_0000
    ensures x < 0x100_0000 ==> t == x
  {
    x % 0x100_0000
  }

  /** Assigning to an 8-bit unsigned bit field keeps the low 8 bits. */
  function LowBits8(x: nat): (t: nat)
    ensures t < 0x100
    ensures x < 0x100 ==> t == x
  {
    x % 0x100
  }

  /** One iteration of the instance loop. Within the bit-field widths every
      input survives into its record; the flags are always zero and the
      handle is the bottom-level structure's. */
  function ToRecord(instance: RTGeometryInstance): (r: GeometryInstance)
    ensures r.transform == Transpose(instance.worldMatrix)
    ensures Transpose(r.transform) == instance.worldMatrix
    ensures r.accelerationStructureHandle == instance.blasHandle
    ensures r.flags == 0
    ensures r.instanceId < 0x100_0000 && r.mask < 0x100 && r.instanceOffset < 0x100_0000
    ensures instance.customInstanceId < 0x100_0000 ==> r.instanceId == instance.customInstanceId
    ensures instance.hitMask < 0x100 ==> r.mask == instance.hitMask
    ensures instance.shaderBindingTableOffset < 0x100_0000 ==> r.instanceOffset == instance.shaderBindingTableOffset
  {
    TransposeInvolution(instance.worldMatrix);
    GeometryInstance(Transpose(instance.worldMatrix), LowBits24(instance.customInstanceId), LowBits8(instance.hitMask),
                     LowBits24(instance.shaderBindingTableOffset), 0, instance.blasHandle)
  }

  /** Where the allocator places a buffer. */
  datatype MemoryUsage = CpuToGpu | GpuOnly

  /** What is handed to the allocator; sharing is always exclusive. */
  datatype BufferCreateInfo = BufferCreateInfo(size: nat, usage: bv32, memoryUsage: MemoryUsage)

  /** The usage of both buffers: the ray-tracing bit, plus both transfer bits
      in debug mode (for capture tools). */
  function BufferUsage(debugMode: bool): (u: bv32)
    ensures u & RayTracingBit == RayTracingBit
    ensures u & TransferSrcBit == (if debugMode then TransferSrcBit else 0)
    ensures u & TransferDstBit == (if debugMode then TransferDstBit else 0)
    ensures u & !(RayTracingBit | TransferSrcBit | TransferDstBit) == 0
  {
    var usage := RayTracingBit;
    if debugMode then usage | TransferSrcBit | TransferDstBit else usage
  }

  /** The record loop and size computation of `createInstanceBuffer`: one
      record per instance in input order, the buffer exactly fitting them. */
  method CreateInstanceBuffer(instances: seq<RTGeometryInstance>, debugMode: bool)
    returns (instanceData: seq<GeometryInstance>, info: BufferCreateInfo)
    ensures |instanceData| == |instances|
    ensures forall i :: 0 <= i < |instances| ==> instanceData[i] == ToRecord(instances[i])
    ensures info.size == |instances| * GeometryInstanceSize
    ensures info.usage == BufferUsage(debugMode) && info.memoryUsage == CpuToGpu
  {
    instanceData := [];
    var instanceIdx := 0;
    while instanceIdx < |instances|
      invariant 0 <= instanceIdx <= |instances|
      invariant |instanceData| == instanceIdx
      invariant forall i :: 0 <= i < instanceIdx ==> instanceData[i] == ToRecord(instances[i])
    {
      var instance := instances[instanceIdx];
      var data := GeometryInstance(Transpose(instance.worldMatrix), 0, 0, 0, 0, 0);
      data := data.(accelerationStructureHandle := instance.blasHandle);
      data := data.(instanceId := LowBits24(instance.customInstanceId));
      data := data.(mask := LowBits8(instance.hitMask), flags := 0);
      data := data.(instanceOffset := LowBits24(instance.shaderBindingTableOffset));
      instanceData := instanceData + [data];
      instanceIdx := instanceIdx + 1;
    }
    var totalSize := |instanceData| * GeometryInstanceSize;
    info := BufferCreateInfo(totalSize, BufferUsage(debugMode), CpuToGpu);
  }

  /** `VkAccelerationStructureMemoryRequirementsTypeNV`. */
  datatype MemoryRequirementsType = ObjectMemory | BuildScratch | UpdateScratch

  /** Scratch for an in-place update, otherwise scratch for a build; never the
      object memory itself. */
  function ScratchType(updateInPlace: bool): (t: MemoryRequirementsType)
    ensures t != ObjectMemory
    ensures t == UpdateScratch <==> updateInPlace
  {
    if updateInPlace then UpdateScratch else BuildScratch
  }

  /** `createScratchBufferForAccelerationStructure`: the requirement type
      asked of the driver, and the buffer made from the size it reports. */
  method CreateScratchBuffer(updateInPlace: bool, debugMode: bool, requiredSize: nat)
    returns (requirementType: MemoryRequirementsType, info: BufferCreateInfo)
    ensures requirementType == ScratchType(updateInPlace)
    ensures info == BufferCreateInfo(requiredSize, BufferUsage(debugMode), GpuOnly)
  {
    requirementType := if updateInPlace then UpdateScratch else BuildScratch;
    var usage := RayTracingBit;
    if debugMode {
      usage := usage | TransferSrcBit | TransferDstBit;
    }
    info := BufferCreateInfo(requiredSize, usage, GpuOnly);
  }
}
