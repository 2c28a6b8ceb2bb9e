/**
 * What a node's per-frame closure records into the command list, and the
 * frame-scoped state it receives.
 */
module Commands {
  import opened Extent
  import opened Resources

  datatype PipelineStage = Host | RayTracing

  /** A small push-constant value. */
  datatype Constant = FloatConstant(f: real) | BoolConstant(b: bool) | IntConstant(i: int)

  datatype Command =
    | CopyTexture(src: Handle, dst: Handle)
    | SetComputeState(computeState: Handle)
    | SetRayTracingState(rayTracingState: Handle)
    | BindSet(bindingSet: Handle, index: nat)
    | PushConstant(stage: ShaderStage, value: Constant, byteOffset: nat)
    | Dispatch(globalSize: Extent2D, localSize: Extent3D)
    | DebugBarrier
    | TraceRays(extent: Extent2D)
    | WaitEvent(event: nat, waitStage: PipelineStage)
    | ResetEvent(event: nat, resetStage: PipelineStage)
    | SignalEvent(event: nat, signalStage: PipelineStage)
    | ClearTexture(texture: Handle, color: Vec3)

  /** Frame-scoped state handed to every closure. */
  datatype AppState = AppState(elapsedTime: real, deltaTime: real, frameIndex: nat, windowExtent: Extent2D)
}
