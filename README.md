# ArkoseRenderer render nodes, in Dafny

This project models the deterministic core of ArkoseRenderer's render nodes and utilities, and proves properties of that model:

- **Extents.** `Extent2D` and `Extent3D` are value types with delegating constructors and componentwise `==` / `!=`.
- **Input.** A keyboard and mouse state machine holds fixed-size flag buffers:
  - "down" flags persist across frames;
  - "was pressed / was released" flags are cleared by `preEventPoll` and set by the GLFW callbacks;
  - a cursor position and a scroll offset give the per-frame deltas.
- **Registry.** Resources are created through a registry. The registry a node's `constructNode` receives and the one its `constructFrame` receives are modelled as one arena (see Left out). A handle is an index into the registry's arena of created resources. `publish` records a `(producer node, entry name) -> handle` entry, and the typed getters find published entries. Only the behaviour the nodes' calls show is modelled; the registry's implementation is not part of this model.
- **Bloom node.** It plans a seven-level mip chain below the forward pass's colour target. It wires downsample and upsample binding sets between neighbouring levels. Each frame it records copies, dispatches and barriers in a fixed order, and the final blend only when the blend is enabled.
- **Ray-traced diffuse GI node** (`rt-diffuse-gi`):
  - it builds a per-mesh table over every model's meshes and then its proxy's meshes;
  - it builds two ray-tracing states, one per top-level acceleration structure;
  - it runs a per-frame state machine over the accumulated-frame counter, with a sample cap, a reset, a render toggle and a proxy choice.
- **Ray-traced first-hit node** (`rt-firsthit`):
  - it builds the same mesh table, but over the models' own meshes only;
  - it publishes a storage image;
  - it falls back to a white pixel texture for a missing environment map;
  - each frame it updates a time buffer and records a fixed command sequence.
- **G-buffer node** (`g-buffer`). It publishes `normal`, `depth` and `baseColor`, which are exactly the entries the GI node looks up.
- **VK_NV_ray_tracing helpers:**
  - the device-extension scan;
  - the translation of geometry instances into `VkGeometryInstanceNV` records;
  - the create-info of the instance and scratch buffers;
  - the choice between build and update scratch memory.

Some parts cannot be modelled directly: GPU objects, the Vulkan and allocator calls, ImGui widgets and GLFW queries. These become opaque handles, recorded commands, or parameters:
- slider values are `Option<real>`;
- checkbox clicks and key presses are booleans;
- the elapsed time and the frame index come through `AppState`;
- the decoded size of an image file and the driver's scratch size are parameters.

The files, one module each:
- `wrappers.dfy`: `Option`, `Result` and the setup error.
- `extent.dfy`: the extent types.
- `input.dfy`: the `Input` class over `array<bool>` buffers.
- `resources.dfy`: resource descriptions, and the arena-growth predicates `Extends` and `Names`.
- `commands.dfy`: recorded commands and `AppState`.
- `registry.dfy`: the `Registry` class.
- `scene.dfy`: meshes, models, the mesh traversal order and per-vertex records.
- `rtmeshtable.dfy`: the mesh table both ray-tracing nodes share.
- `bloom.dfy`, `rtdiffusegi.dfy`, `rtfirsthit.dfy`, `gbuffer.dfy`, `vulkanrtx.dfy`: one file per node or helper.
- `setup.dfy`: how the G-buffer node's outputs reach the GI node's lookups.

Where the source dereferences the result of a lookup without checking it (`.value()`, `*ptr`, or a raw `getBuffer` result passed into a binding), the model makes a missing entry an explicit `Failure(MissingResource(node, label))`.

## Model

| member | source | states |
|---|---|---|
| Extent.Extent2D.Equals | src/utility/Extent.h:35-38 | 2D `==` holds exactly when both components agree, i.e. when the extents are the same value |
| Extent.Extent2D.NotEquals | src/utility/Extent.h:31-34 | 2D `!=` holds exactly when the extents differ |
| Extent.Extent3D.Equals | src/utility/Extent.h:73-76 | 3D `==` holds exactly when all three components agree |
| Extent.Extent3D.NotEquals | src/utility/Extent.h:69-72 | 3D `!=` holds exactly when the extents differ |
| Extent.Make2D | src/utility/Extent.h:11-15 | the unsigned constructor stores width and height |
| Extent.Default2D | src/utility/Extent.h:7-10 | a default 2D extent is 0 x 0 |
| Extent.Make2DFromInt | src/utility/Extent.h:16-22 | the `int` constructor demands non-negative components and keeps their values |
| Extent.Copy2D | src/utility/Extent.h:23-26 | a 2D copy equals its original |
| Extent.Make3D | src/utility/Extent.h:50-55 | the three-argument constructor stores all three components |
| Extent.Uniform3D | src/utility/Extent.h:46-49 | `Extent3D(val)` sets width, height and depth to `val` |
| Extent.Default3D | src/utility/Extent.h:46-49 | a default 3D extent is 0 x 0 x 0 |
| Extent.Copy3D | src/utility/Extent.h:56-59 | a 3D copy equals its original |
| Extent.From2D | src/utility/Extent.h:60-63 | lifting a 2D extent copies width and height and takes the given depth |
| Extent.From2DDefaultDepth | src/utility/Extent.h:60-63 | lifting without a depth gives depth 1 |
| Extent.NotEqualsIsNegation | src/utility/Extent.h:31-38 | for both types, `!=` is exactly the negation of `==` |
| Extent.From2DInjective | src/utility/Extent.h:60-76 | two lifted extents are equal exactly when the 2D extents and the depths are |
| Input.Input.constructor | src/utility/Input.cpp:9 | the singleton starts with every flag false, the last position at the sentinel -1 and both scroll offsets 0 and the current position at (0, 0) (initial values assumed, see Left out) |
| Input.Input.PreEventPoll | src/utility/Input.cpp:30-43 | clears every pressed and released flag of keys and buttons, leaves the down flags untouched, and makes the last position and scroll equal the current ones, so both deltas are zero |
| Input.Input.KeyEventCallback | src/utility/Input.cpp:139-159 | a press sets only this key's pressed and down flags; a release sets its released flag and clears its down flag; repeat and unknown actions change nothing |
| Input.Input.MouseButtonEventCallback | src/utility/Input.cpp:161-183 | the key rules for buttons; the cursor is then disabled exactly while the right button is down |
| Input.Input.MouseMovementEventCallback | src/utility/Input.cpp:185-196 | records the position; while the last X is the sentinel, the last position becomes the new one, so the first delta is zero; the scroll is unchanged |
| Input.Input.MouseScrollEventCallback | src/utility/Input.cpp:198-204 | adds the vertical offset to the current scroll (and so to the scroll delta), ignores the horizontal one, and leaves the cursor alone |
| Input.Input.IsKeyDown | src/utility/Input.cpp:45-49 | reads the key's down flag; `Input.PolledKeyEvent` states how events set it |
| Input.Input.WasKeyPressed | src/utility/Input.cpp:51-55 | reads the key's pressed flag; `Input.PolledKeyEvent` states how events set it |
| Input.Input.IsButtonDown | src/utility/Input.cpp:63-67 | reads the button's down flag; `Input.PolledButtonEvent` states how events set it |
| Input.Input.WasButtonPressed | src/utility/Input.cpp:69-73 | reads the button's pressed flag; `Input.PolledButtonEvent` states how events set it |
| Input.Input.WasButtonReleased | src/utility/Input.cpp:75-79 | reads the button's released flag; `Input.PolledButtonEvent` states how events set it |
| Input.Input.MouseDelta | src/utility/Input.cpp:89-92 | the cursor movement since the last poll; `Input.PolledMotion` states its value after a poll and a move |
| Input.Input.ScrollDelta | src/utility/Input.cpp:94-97 | the vertical scrolling since the last poll; `Input.PolledMotion` states its value after a poll and a scroll |
| Input.FirstMoveAfterStartupPoll | src/utility/Input.cpp:30-43 | from the start-up state, a poll and then the first movement to (x, y) report a mouse delta of (x, y): the poll overwrites the -1 sentinel with the initial position (0, 0) |
| Input.ReleasedMirrorsPressed | src/utility/Input.cpp:51-61 | as written, `wasKeyReleased(k)` always equals `wasKeyPressed(k)` |
| Input.ReleaseAfterPollIsMissed | src/utility/Input.cpp:57-61 | after a poll and a release of k, `wasKeyReleased` as written says false while the intended reading says true |
| Input.PolledKeyEvent | src/utility/Input.cpp:30-61 | after a poll and one event for k, the intended reading reports a release exactly for a release action and a press exactly for a press action; the key is down exactly after a press, or after a non-release event while it was already held |
| Input.PolledButtonEvent | src/utility/Input.cpp:30-79 | after a poll and one event for a button, it is reported released exactly for a release action and pressed exactly for a press action; it is down exactly after a press, or after a non-release event while it was already held; the cursor mode follows the right button |
| Input.PolledMotion | src/utility/Input.cpp:40-42 | after a poll, a move to (x, y) and a vertical scroll by dy, the mouse delta is the move from the position at the poll (zero while the last position is still the sentinel) and the scroll delta is dy |
| ResourceRegistry.Registry.BeginNode | src/rendering/nodes/GBufferNode.cpp:3-6 | the node whose construction runs next becomes the producer of later publishes; no resource or entry changes |
| ResourceRegistry.Registry.CreateTexture2D | src/rendering/nodes/GBufferNode.cpp:17 | appends exactly one texture with the given extent and settings, and returns its new handle, one past every earlier one |
| ResourceRegistry.Registry.CreateBuffer | src/rendering/nodes/RTFirstHitNode.cpp:73 | appends exactly one buffer with the given usage, memory hint and contents, under a new handle |
| ResourceRegistry.Registry.CreateBindingSet | src/rendering/nodes/BloomNode.cpp:43-44 | appends exactly one binding set with the given bindings, under a new handle |
| ResourceRegistry.Registry.CreateComputeState | src/rendering/nodes/BloomNode.cpp:56-57 | appends exactly one compute state of the shader over the given sets, under a new handle |
| ResourceRegistry.Registry.CreateRayTracingState | src/rendering/nodes/RTFirstHitNode.cpp:87-88 | appends exactly one ray-tracing state of the binding table, sets and recursion depth, under a new handle |
| ResourceRegistry.Registry.LoadTexture2D | src/rendering/nodes/RTDiffuseGINode.cpp:53 | returns a handle to a texture of the image file with the decoded size and the sRGB and mipmap flags; every earlier handle is kept |
| ResourceRegistry.Registry.Publish | src/rendering/nodes/GBufferNode.cpp:18 | `publish` adds exactly the entry (current node, name) -> handle |
| ResourceRegistry.Registry.Lookup | src/rendering/nodes/RTDiffuseGINode.cpp:89-91 | a lookup finds an entry exactly when it was published under that (node, name) and is of the asked kind, and then returns the published handle |
| ResourceRegistry.Registry.UpdateBufferData | src/rendering/nodes/RTFirstHitNode.cpp:95 | `updateData` replaces one buffer's contents and nothing else |
| ResourceRegistry.Registry.CreatePixelTexture | src/rendering/nodes/RTFirstHitNode.cpp:74 | returns a handle to a 1 x 1 texture of the colour; every earlier handle is kept |
| ResourceRegistry.Find | src/rendering/nodes/RTDiffuseGINode.cpp:89-91 | reference definition of the typed getters: the published handle of (producer, name) if there is one and it names a resource of the asked kind, else none |
| ResourceRegistry.FindStable | src/rendering/nodes/RTFirstHitNode.cpp:74-79 | creating resources never changes what a lookup resolves to |
| ResourceRegistry.FindAfterPublish | src/rendering/nodes/GBufferNode.cpp:17-24 | after a publish, looking the entry up (from any node) finds the published handle, and every other entry resolves as before |
| Scene.BuildVertices | src/rendering/nodes/RTDiffuseGINode.cpp:37-44 | one RT vertex per position, in order, each built from that vertex's position, normal and texture coordinate |
| Scene.Traversal | src/rendering/nodes/RTDiffuseGINode.cpp:67-75 | reference definition of `forEachModel` / `forEachMesh`: the models in order, each contributing its own meshes and then, with proxies, its proxy's meshes |
| Scene.TraversalStep | src/rendering/nodes/RTDiffuseGINode.cpp:67-75 | visiting one more model appends its meshes and then (with proxies) its proxy's meshes |
| Scene.TraversalPrefix | src/rendering/nodes/RTDiffuseGINode.cpp:67-75 | the meshes of the first i models are a prefix of the whole traversal |
| Scene.TraversalPosition | src/rendering/nodes/RTDiffuseGINode.cpp:67-75 | mesh j of model i sits right after the meshes of the earlier models, and its proxy's mesh j follows all of the model's own meshes |
| Scene.TraversalLength | src/rendering/nodes/RTDiffuseGINode.cpp:67-75 | the number of traversed meshes is the sum over the models of their mesh counts (plus the proxies' counts when proxies are visited) |
| Scene.OwnMeshesIgnoreProxies | src/rendering/nodes/RTFirstHitNode.cpp:55-59 | without proxies, the proxy meshes never influence the traversal |
| RTMeshTable.RowsForExtends | src/rendering/nodes/RTDiffuseGINode.cpp:56-64 | a built table stays valid as the arena grows |
| RTMeshTable.AppendRow | src/rendering/nodes/RTDiffuseGINode.cpp:56-64 | one more mesh appends one vertex buffer, one index buffer, one texture and one RTMesh whose object id and texture index are the mesh's position, and keeps every earlier row |
| BloomNode.LevelExtentClosedForm | src/rendering/nodes/BloomNode.cpp:28-38 | the width and height of level i are those of level 0 divided by 2^i, rounding down |
| BloomNode.LevelExtentShrinks | src/rendering/nodes/BloomNode.cpp:37 | going down the chain never grows an extent |
| BloomNode.CreateLevels | src/rendering/nodes/BloomNode.cpp:28-38 | creates 7 downsample and 7 upsample textures, exactly 14 new arena slots: level i's downsample texture is new slot 2i and its upsample texture new slot 2i+1, so all are distinct and none existed before. Both textures of level i have the floor-halved extent `LevelExtent(base, i)`, format RGBA16F, no mipmaps and clamp-to-edge wrapping |
| BloomNode.CreateSets | src/rendering/nodes/BloomNode.cpp:40-54 | creates 6 downsample sets and 5 upsample sets, in 11 new arena slots taken alternately. Set j binds `down[j+1]` and `down[j]`, or `up[j]`, `up[j+1]` and `down[j]`, as storage images for compute |
| BloomNode.ConstructFrame | src/rendering/nodes/BloomNode.cpp:12-65 | fails exactly when the forward pass published no `color` texture. Otherwise the chain's level 0 has the target's extent and the frame holds the chain, its sets, the three compute states and the blend set; nothing is published. Every created handle is a new arena slot, in creation order (`FreshLayout`), so no two coincide and none is the target; a failure creates nothing |
| BloomNode.DownsamplePassesShape | src/rendering/nodes/BloomNode.cpp:76-87 | downsample pass i binds set i, dispatches over level i+1 and ends with a barrier, in increasing i |
| BloomNode.UpsamplePassesShape | src/rendering/nodes/BloomNode.cpp:101-112 | the k-th upsample pass binds set 4-k, dispatches over level 4-k and ends with a barrier |
| BloomNode.BloomCommands | src/rendering/nodes/BloomNode.cpp:67-128 | reference definition of the closure's command list: copy and downsample state, the downsample passes, the bottom-level copy, upsample state and radius, the upsample passes, and the blend pass |
| BloomNode.BloomCommandsSlices | src/rendering/nodes/BloomNode.cpp:67-128 | a frame's commands are, in order: the copy and downsample state, the downsample passes, the bottom-level copy with upsample state and radius, the upsample passes, and the blend pass |
| BloomNode.DownsampleOrder | src/rendering/nodes/BloomNode.cpp:71-100 | a frame has 42 commands when enabled and 38 otherwise. It starts with the copy of the target into `down[0]`, then six downsample steps for levels 1..6, then the copy `down[6]` -> `up[6]`, the upsample state and the blur radius |
| BloomNode.UpsampleOrder | src/rendering/nodes/BloomNode.cpp:101-127 | upsample steps write levels 4 down to 0. When enabled, the frame ends with the blend state, the blend set, the blend factor and a dispatch over the target's extent |
| BloomNode.DownsampleDispatches | src/rendering/nodes/BloomNode.cpp:68-82 | every downsample dispatch uses the 16 x 16 x 1 workgroup |
| BloomNode.UpsampleDispatches | src/rendering/nodes/BloomNode.cpp:99-112 | every upsample dispatch uses the 16 x 16 x 1 workgroup |
| BloomNode.BloomDispatchesUseLocalSize | src/rendering/nodes/BloomNode.cpp:68-127 | every dispatch of a frame uses the 16 x 16 x 1 workgroup |
| BloomNode.BloomNode.constructor | src/rendering/nodes/BloomNode.cpp:96-120 | the statics start at radius 0.001, enabled, blend 0.04 |
| BloomNode.BloomNode.Execute | src/rendering/nodes/BloomNode.cpp:67-128 | the closure records exactly the frame's command list with the level extents of the chain. A moved slider sets the radius; a click toggles `enabled`; the blend slider applies only while enabled |
| BloomNode.RecordDownsamplePasses | src/rendering/nodes/BloomNode.cpp:75-87 | the downsample loop, which reads each dispatch size from the texture it writes, records exactly the six downsample passes |
| BloomNode.RecordUpsamplePasses | src/rendering/nodes/BloomNode.cpp:101-112 | the descending upsample loop records exactly the five upsample passes |
| RTDiffuseGINode.SamplesPerPixel | src/rendering/nodes/RTDiffuseGINode.cpp:130-131 | `samplesPerPass * m_numAccumulatedFrames` with one sample per pass, the quantity the cap is tested against |
| RTDiffuseGINode.BaseColorTexture | src/rendering/nodes/RTDiffuseGINode.cpp:47-54 | with no base-colour path, a linear 1 x 1 texture of the colour factor. Otherwise the image loaded as sRGB with mipmaps |
| RTDiffuseGINode.TableForExtends | src/rendering/nodes/RTDiffuseGINode.cpp:56-64 | the GI table, textures included, stays valid as the arena grows |
| RTDiffuseGINode.AddMesh | src/rendering/nodes/RTDiffuseGINode.cpp:29-65 | `createTriangleMeshVertexBuffer` appends exactly the mesh's row, with the texture its material asks for |
| RTDiffuseGINode.AddMeshes | src/rendering/nodes/RTDiffuseGINode.cpp:68-70 | one `forEachMesh` appends the rows of the meshes in order |
| RTDiffuseGINode.ModelMeshesTraversed | src/rendering/nodes/RTDiffuseGINode.cpp:67-75 | every own and proxy mesh of a model is traversed |
| RTDiffuseGINode.AddModel | src/rendering/nodes/RTDiffuseGINode.cpp:67-75 | one model step appends the rows of its meshes and then of its proxy's meshes |
| RTDiffuseGINode.Required | src/rendering/nodes/RTDiffuseGINode.cpp:89-119 | reference definition of the eight required lookups in the source's order: the three G-buffer textures, the scene TLAS, camera, environment data, directional light, and the proxy TLAS |
| RTDiffuseGINode.Resolve | src/rendering/nodes/RTDiffuseGINode.cpp:89-120 | the inputs a registry state offers exist exactly when every required entry is found |
| RTDiffuseGINode.AccumulationStep | src/rendering/nodes/RTDiffuseGINode.cpp:131-180 | the counter stays within [0, cap]. It grows by one below the cap and stays put at the cap. A reset yields 1 below the cap and 0 at the cap, since the test uses the pre-reset count |
| RTDiffuseGINode.AccumulateSaturates | src/rendering/nodes/RTDiffuseGINode.cpp:172-180 | without resets, the counter after k frames is `min(n + k, cap)` |
| RTDiffuseGINode.FrameState | src/rendering/nodes/RTDiffuseGINode.cpp:139-180 | clicks toggle the three boxes. With rendering off, nothing is recorded and the counter is kept. Otherwise P forces proxies on, O (without P) forces them off, and the counter takes one step, reset by a camera move or by R |
| RTDiffuseGINode.IdleFrame | src/rendering/nodes/RTDiffuseGINode.cpp:146-148 | the unfolded frame step with rendering off: only the boxes toggle and nothing is recorded (a proof step of `RecordFrame`) |
| RTDiffuseGINode.RenderingFrame | src/rendering/nodes/RTDiffuseGINode.cpp:150-191 | the unfolded frame step with rendering on: the head and then the accumulation block, with the updated state (a proof step of `RecordFrame`) |
| RTDiffuseGINode.FrameStep | src/rendering/nodes/RTDiffuseGINode.cpp:129-192 | reference definition of one closure run: toggles, early return when not rendering, O/P selection, the head, and the accumulation block with one counter step |
| RTDiffuseGINode.FrameCommands | src/rendering/nodes/RTDiffuseGINode.cpp:157-191 | the state and slot-0 set follow the proxy choice, and the two ray-generation constants are pushed. The wait is on the host exactly on frame 0. There is a clear exactly on reset and a trace exactly below the cap. The frame ends with the averaging pass pushing the updated counter |
| RTDiffuseGINode.ResetAtCapTracesNothing | src/rendering/nodes/RTDiffuseGINode.cpp:172-186 | a reset while at the cap leaves the counter at 0, traces nothing and averages with count 0 |
| RTDiffuseGINode.PWinsOverO | src/rendering/nodes/RTDiffuseGINode.cpp:150-158 | pressing P selects the proxy state whatever O and the box say |
| RTDiffuseGINode.ResolveInputs | src/rendering/nodes/RTDiffuseGINode.cpp:89-120 | succeeds exactly when every required entry is found, and then returns the resolved inputs; a failure names the first missing entry in lookup order |
| RTDiffuseGINode.StateForTLASExtends | src/rendering/nodes/RTDiffuseGINode.cpp:93-114 | a built state for a TLAS stays valid as the arena grows |
| RTDiffuseGINode.RTDiffuseGINode.constructor | src/rendering/nodes/RTDiffuseGINode.cpp:139-144 | the checkbox statics start with rendering on, colour and proxies off; the counter starts at 0 (assumed, see Left out) |
| RTDiffuseGINode.RTDiffuseGINode.ConstructNode | src/rendering/nodes/RTDiffuseGINode.cpp:22-85 | the table has one row per traversed mesh (own meshes, then the proxy's). The object-data set binds it with a storage-buffer RTMesh buffer, and the accumulation texture is window-sized storage-and-sample RGBA16F |
| RTDiffuseGINode.RTDiffuseGINode.CreateStateForTLAS | src/rendering/nodes/RTDiffuseGINode.cpp:93-114 | the nine-binding frame set for the TLAS returns the environment map or else a white sRGB pixel, and the ray-tracing state has the GI shaders, the frame and object-data sets, and depth 2. The set and the state are new arena slots, the state right after the set |
| RTDiffuseGINode.RTDiffuseGINode.CreateAveragePass | src/rendering/nodes/RTDiffuseGINode.cpp:122-127 | publishes exactly `diffuseGI`, a new window-sized RGBA16F storage-and-sample texture, and builds the averaging set (accumulation texture into `diffuseGI`) and state; the three take the next three new arena slots, so `diffuseGI` is none of the earlier textures, in particular not the accumulation texture it averages from |
| RTDiffuseGINode.RTDiffuseGINode.ConstructFrame | src/rendering/nodes/RTDiffuseGINode.cpp:87-127 | succeeds exactly when every required entry is found. A failure creates and publishes nothing and names the first missing entry. A success publishes only `diffuseGI` and builds both ray-tracing states and the averaging pass, all seven handles new arena slots in creation order (`FreshLayout`), and `diffuseGI` differs from the accumulation texture |
| RTDiffuseGINode.RTDiffuseGINode.Execute | src/rendering/nodes/RTDiffuseGINode.cpp:129-192 | the closure's new state and commands are exactly the frame step on O, P (pressed) and R (down), and the counter stays within the cap |
| RTDiffuseGINode.RTDiffuseGINode.ApplyClicks | src/rendering/nodes/RTDiffuseGINode.cpp:139-144 | each checkbox click toggles its flag |
| RTDiffuseGINode.RTDiffuseGINode.SelectStructure | src/rendering/nodes/RTDiffuseGINode.cpp:150-155 | O clears the proxy flag and P sets it; P wins |
| RTDiffuseGINode.RTDiffuseGINode.AccumulateSamples | src/rendering/nodes/RTDiffuseGINode.cpp:171-191 | records the optional clear, the optional trace and the averaging pass, and takes one counter step |
| RTDiffuseGINode.RTDiffuseGINode.RecordFrame | src/rendering/nodes/RTDiffuseGINode.cpp:139-191 | the closure body after the key reads equals the frame step |
| RTFirstHitNode.Name | src/rendering/nodes/RTFirstHitNode.cpp:13-16 | the node's name is `rt-firsthit` |
| RTFirstHitNode.AddMesh | src/rendering/nodes/RTFirstHitNode.cpp:25-53 | appends the mesh's row, and its texture is the material's own base-colour texture |
| RTFirstHitNode.AddModel | src/rendering/nodes/RTFirstHitNode.cpp:55-59 | one model step appends the rows of the model's own meshes only |
| RTFirstHitNode.OwnMeshesTraversed | src/rendering/nodes/RTFirstHitNode.cpp:55-59 | every own mesh of a model is traversed |
| RTFirstHitNode.FrameCommands | src/rendering/nodes/RTFirstHitNode.cpp:90-100 | reference definition of the closure's commands: the state, sets 0, 1 and 2, and a trace over the window extent |
| RTFirstHitNode.BindsMatchLayout | src/rendering/nodes/RTFirstHitNode.cpp:88-99 | each set the closure binds sits at its own index in the state's layout, every layout set is bound, and the trace comes last |
| RTFirstHitNode.RTFirstHitNode.ConstructNode | src/rendering/nodes/RTFirstHitNode.cpp:18-66 | one row per own mesh of every model; the object-data set binds the table and the RTMesh buffer |
| RTFirstHitNode.RTFirstHitNode.ConstructFrame | src/rendering/nodes/RTFirstHitNode.cpp:68-101 | publishes `image`, a window-sized texture, whatever happens next. It fails exactly when the scene TLAS or the camera is missing, naming the TLAS first. Otherwise it builds the frame set, the state with depth 1 and the time buffer; the environment set binds the scene's map or a white sRGB pixel. The image is the first new arena slot, so it is none of the earlier textures, and every created handle is new, in creation order (`FreshLayout`) |
| RTFirstHitNode.RTFirstHitNode.CreateFrameInputs | src/rendering/nodes/RTFirstHitNode.cpp:70-74 | the published storage image, a 4-byte uniform time buffer, the eagerly created white pixel and the environment set; the image and the buffer are the next two new arena slots and the set comes after them, last |
| RTFirstHitNode.RTFirstHitNode.Execute | src/rendering/nodes/RTFirstHitNode.cpp:90-100 | writes the elapsed time into the time buffer and nothing else, and records state, the sets 0, 1 and 2, and a trace over the window extent |
| RTFirstHitNode.TimeUpdateKeepsFrame | src/rendering/nodes/RTFirstHitNode.cpp:94-95 | the time update keeps the frame valid, holds the new time and changes no other resource |
| GBufferNode.Name | src/rendering/nodes/GBufferNode.cpp:8-11 | the node's name is `g-buffer` |
| GBufferNode.ConstructFrame | src/rendering/nodes/GBufferNode.cpp:13-27 | creates three window-sized textures (RGBA16F, Depth32F, RGBA8) and publishes exactly `normal`, `depth` and `baseColor` under the current node; the closure records nothing |
| GBufferNode.OutputsFound | src/rendering/nodes/GBufferNode.cpp:17-24 | after the node runs as `g-buffer`, each output is found as a texture under its own name |
| NodeWiring.GBufferName | src/rendering/nodes/GBufferNode.cpp:8-11 | the G-buffer's name is the producer the GI node asks for |
| NodeWiring.GBufferFeedsDiffuseGI | src/rendering/nodes/RTDiffuseGINode.cpp:89-91 | on any registry where the G-buffer has not yet published, after its frame the GI node's first three required lookups find the three new, distinct textures the G-buffer created, so the GI setup cannot fail on a G-buffer entry |
| VulkanRTX.IsSupportedOnPhysicalDevice | src/backend/vulkan/VulkanRTX.cpp:27-50 | the early-returning scan answers true exactly when both the NV ray-tracing and the memory-requirements-2 extensions are offered |
| VulkanRTX.SupportIgnoresOrder | src/backend/vulkan/VulkanRTX.cpp:37-49 | the answer does not depend on order or repetition, and an empty list is unsupported |
| VulkanRTX.LowBits24 | src/backend/vulkan/VulkanRTX.cpp:72-77 | a 24-bit field holds a value below 2^24, and keeps every value that fits |
| VulkanRTX.LowBits8 | src/backend/vulkan/VulkanRTX.cpp:74-75 | an 8-bit field holds a value below 2^8, and keeps every value that fits |
| VulkanRTX.ToRecord | src/backend/vulkan/VulkanRTX.cpp:62-79 | a record holds the transposed world matrix (which transposes back to it), the BLAS handle and zero flags. Its id, mask and offset equal the instance's whenever they fit their fields |
| VulkanRTX.Transpose | src/backend/vulkan/VulkanRTX.cpp:65 | entry (i, j) of the transpose is entry (j, i) of the matrix |
| VulkanRTX.TransposeInvolution | src/backend/vulkan/VulkanRTX.cpp:65 | transposing twice gives the matrix back |
| VulkanRTX.BufferUsage | src/backend/vulkan/VulkanRTX.cpp:84-92 | the ray-tracing bit is always set, both transfer bits exactly in debug mode, and no other bit |
| VulkanRTX.CreateInstanceBuffer | src/backend/vulkan/VulkanRTX.cpp:57-95 | one record per instance, in order; the buffer is count x 64 bytes, with that usage, in CPU-to-GPU memory |
| VulkanRTX.ScratchType | src/backend/vulkan/VulkanRTX.cpp:112-114 | update scratch exactly when updating in place, else build scratch; never object memory |
| VulkanRTX.CreateScratchBuffer | src/backend/vulkan/VulkanRTX.cpp:109-131 | asks for that scratch type, and creates a GPU-only buffer of the reported size with the ray-tracing and (in debug mode) transfer usage |

## Left out

- The Registry and RenderGraph implementations are not part of this model. The pixel-texture and loaded-texture caches are left open: `CreatePixelTexture` and `LoadTexture2D` only promise some handle naming such a texture, with earlier handles kept. Publishing a name twice from one node is a precondition of `Publish`, as a programming error. The node that publishes is set by `BeginNode`.
- Node names that are not shown (`SceneUniformNode::name()`, `RTAccelerationStructures::name()`) are parameters. So are `maxSamplesPerPixel`, `KeyboardKeyCount`, `MouseButtonCount` and the index of `Button::Right`.
- Default arguments of `createTexture2D` whose values are not shown are the `Default*` constructors of the resource description.
- `RT_MAX_TEXTURES`, the array size of the texture binding, is not shown and is not modelled.
- Floating point is not modelled: vertex transforms and the slider and blend values are opaque `real`s or symbolic products. The matrix transpose only moves entries, and is modelled exactly.
- Left out entirely: ImGui text and widgets, `mousePosition`, gamepad sticks and dead zones. The `glfwSetInputMode` call of the button callback is modelled only by the cursor mode it is given, the callback's `mode` result.
- GPU semantics of events, barriers, dispatches, traces and shader files are not modelled; they appear only as recorded commands.
- Vulkan and allocator calls are not modelled: extension enumeration, `vkGetAccelerationStructureMemoryRequirementsNV`, `vmaCreateBuffer`, memory mapping and their error logging. Their inputs and outputs are parameters and create-info values.
- VulkanRTX.CreateInstanceBuffer: the size is an unbounded integer, so a `VkDeviceSize` overflow is not modelled.
- VulkanRTX.ToRecord: the bit-field widths (24-bit id and hit-group offset, 8-bit mask and flags, 64-byte record) follow `VkGeometryInstanceNV` of the VK_NV_ray_tracing extension, because the header that declares the record is not shown.
- RTDiffuseGINode.RTDiffuseGINode.ConstructFrame: the registry `constructNode` receives and the one `constructFrame` receives are modelled as one arena, because the Registry declaration is not part of this model. `ConstructFrame` and `CreateAveragePass` therefore require the accumulation texture and the object-data set to be resources of the frame's registry; a registry that does not hold them is not modelled.
- RTDiffuseGINode.RTDiffuseGINode.ConstructFrame: the eight lookups are resolved before `createStateForTLAS` runs, and the source interleaves them with creations. On success the outcome is the same, because creating never changes what a lookup finds (`ResourceRegistry.FindStable`), and the first missing entry is the same, since both orders agree. On a failure the source has already created whatever precedes the failing lookup (a missing proxy TLAS comes after the first ray-tracing state), while the model creates nothing. The environment-map lookup is made once instead of once per structure.
- RTFirstHitNode.RTFirstHitNode.ConstructFrame keeps the source's order. A missing TLAS or camera therefore fails only after the storage image, the time buffer, the white pixel and the environment set exist and `image` is published.
- BloomNode.ConstructFrame: a missing forward colour target returns `Failure`, where the source calls `.value()` on an empty optional.
- Input.Input.KeyEventCallback: requires the key to index the flag buffers. GLFW passes `GLFW_KEY_UNKNOWN` (-1) for keys it cannot identify, and the source then writes `m_wasKeyPressed[-1]` / `m_isKeyDown[-1]` (or the released flag) unguarded on a press or release. That write is undefined behaviour and is not modelled; an out-of-range repeat, which touches nothing, is excluded as well.
- Input.Input.MouseButtonEventCallback: requires the button to index the flag buffers, for the same reason; an out-of-range button index is not modelled.
- Input.Input.constructor: the initial values (all flags false, current position 0, last position -1, both scroll offsets 0) are assumed. They come from the member initialisers of `Input.h`, which is not part of this model; `Input.cpp` only value-initialises the singleton. The -1 sentinel is the value `mouseMovementEventCallback` tests for.
- RTDiffuseGINode.RTDiffuseGINode.constructor: the accumulated-frame counter starting at 0 is assumed; its initialiser is in `RTDiffuseGINode.h`, which is not part of this model.
- A `pushConstant` call without an offset (`RTDiffuseGINode.cpp` lines 166 and 186) is modelled with byte offset 0, the default the `CommandList` declaration is assumed to give; that declaration is not part of this model.
- VulkanRTX.ToRecord: the record keeps the whole transposed 4 x 4 matrix. The narrowing to the record's 3 x 4 transform field, whose declaration is in the header, is not modelled.
- RTFirstHitNode.RTFirstHitNode.CreateFrameInputs: the white pixel texture is requested before the environment-map lookup, where the source looks up first; creating never changes what a lookup finds (`ResourceRegistry.FindStable`).
- BloomNode.BloomNode and RTDiffuseGINode.RTDiffuseGINode: the ImGui state (bloom radius, enabled flag and blend; the GI node's three checkboxes) is kept in `static` locals of the closure, so every instance of the node shares it. The model keeps it in the node object and so assumes one instance of each node; state shared between instances is not modelled.
- Input: `registerWindow`, and how the singleton is reached from a window pointer, are not modelled. The callbacks are methods of one `Input` object.

## Findings

| source | as written | input that shows it | evidently intended | confidence | as-written member | corrected member |
|---|---|---|---|---|---|---|
| src/utility/Input.cpp:57-61 | `wasKeyReleased` reads `m_wasKeyPressed` | `preEventPoll`, then a GLFW_RELEASE event for key k: `wasKeyReleased(k)` is false | read `m_wasKeyReleased`, which the release callback sets | high, not executed | Input.Input.WasKeyReleased | Input.Input.WasKeyReleasedIntended |

`Input.ReleasedMirrorsPressed` and `Input.ReleaseAfterPollIsMissed` exhibit the as-written reading. `Input.PolledKeyEvent` proves the intended one: after a poll and one event, a release is reported exactly for a release action. No node of this model reads `wasKeyReleased`.
