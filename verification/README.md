# Occlusion-scale pass of the `items.occlusionScale` command

This project models in Dafny the core of a modo plugin command,
`items.occlusionScale`. The command is meant to measure, for each selected
item, how many of the selected items' world-space bounding boxes lie
strictly inside its box. It would then multiply the three diagonal scale
terms of the local matrix of every item whose ratio is above a threshold by
the `scale` argument, and repeat this for a number of passes. As built it
measures item 0 only and changes nothing (see below).

Modules:

- `Geometry` (geometry.dfy) defines the value types. `Vec` is a
  three-coordinate `seq<real>` (LXtVector). `Box` is a min/max corner pair
  (LXtBBox). `Matrix` is a 4x4 `seq<seq<real>>` (LXtMatrix4). The module also
  holds the six-face strict containment test and the diagonal rescale of a
  matrix.
- `OcclusionScale` (occlusion_scale.dfy) models the `OcclusionScale` class of
  headers/occlusionscale.h: `bbXformed` (`BbXformed`), the comparison loop
  of `CheckOcclusion` (`ScanBuffer`, `ScanCount`, `CheckOcclusion`),
  `Rescale`, the debug `bb` output, and the constructor as it is built
  (`ConstructAsBuilt`). That constructor measures item 0 and nothing else.
- `PassLoop` (pass_loop.dfy) models the constructor's commented-out iteration
  loop. `Visit` is one inner step, `Sweep`/`Pass` is one pass over the
  selection, `Passes` is `p` passes, and `PassCount` is the unsigned loop
  bound. `IntendedDriver` is the loop on its own, and `ConstructWithLoop` is
  the constructor with the loop restored after its live call.
- `Command` (command.dfy) models `basic_CmdFlags`, `basic_Enable` and
  `cmd_Execute` of source/occlusionscale.cpp. `Execute` takes a `Build`:
  `AsBuilt` or `WithLoop`.
- `Scenarios` (scenarios.dfy) works through small concrete selections.

How the state is modelled:

- The selection is `Scene = seq<Item>` in selection order, and
  `sel_count` is its length. An `Item` has a local matrix and a mesh channel,
  which is one of three things: no channel, an unreadable mesh object, or a
  mesh with local bounds.
- The class keeps its two working boxes in member buffers that persist
  across calls and are never initialised: `bb_min_a`/`bb_max_a` for the
  subject and `bb_min_b`/`bb_max_b` for the item being compared. Here they
  are threaded explicitly as `Corners`, and their starting contents are a
  parameter.
- Host services are fields of a `Host` value, passed in as parameters:
  - the point-by-matrix product `lx::Matrix4Multiply`;
  - the world matrix the host evaluates for a selected item;
  - the host's answer to `CLxUser_Locator::SetScale`.
  When a scale write is accepted, the item's local matrix becomes the
  rescaled matrix. When it is refused, nothing changes.

Behaviour of the code that the model keeps as written:

- An item without a readable mesh does not drop out of the comparison:
  `bbXformed` writes nothing (headers/occlusionscale.h:142-156), so the box
  buffer keeps the corners the previous item left in it.
  - A locator that follows an item lying inside the subject is counted a
    second time (`Scenarios.LocatorRepeatsPreviousBox`).
  - A subject without a mesh is measured with a stale box A and can reach
    the ratio 1 (`Scenarios.MeshlessSubjectCanReachOne`).
  - So the ratio is guaranteed to be below 1 only for a subject that has a
    readable mesh, because then the subject's own box is compared with
    itself (`OcclusionScale.CheckOcclusion`).
  - The ratio is always at most 1, and that is enough to show that a
    threshold of 1 or more never rescales anything.
- The command's description string (source/occlusionscale.cpp:158) says it
  iterates the selected meshes and rescales those that occlude more than a
  threshold. In the code the iteration loop is commented out
  (headers/occlusionscale.h:53-63), and the constructor only measures
  item 0, so the command as built never changes the scene. `PassLoop`
  models the loop as it would run if restored.
- The command constructs `OcclusionScale` with three arguments
  (source/occlusionscale.cpp:131). The header's constructor takes five
  (headers/occlusionscale.h:44). The model follows the header, with `occ`
  and `bb` as outputs. `occ` is never written, because the copy into it is
  commented out.
- The commented-out loop calls `CheckOcclusion(ind, occlusion)` with two
  arguments (headers/occlusionscale.h:57), but the class declares only the
  three-argument `CheckOcclusion(ind, occlusion, bb)` (line 95), so that
  line would not compile as it stands. The model assumes such a call is
  the three-argument check without the debug output: it measures the item
  and updates the buffers but leaves `bb` as the live call wrote it.

## Model

| member | source | states |
|---|---|---|
| Geometry.StrictlyInside | headers/occlusionscale.h:108-114 | containment needs all six strict comparisons, so a box is never counted as inside an equal box, in particular its own |
| Geometry.StrictlyInsideAsymmetric | headers/occlusionscale.h:108-114 | two boxes are never strictly inside each other |
| Geometry.StrictlyInsideTransitive | headers/occlusionscale.h:108-114 | a box inside a box that is inside a third box is inside the third |
| Geometry.ScaleDiagonal | headers/occlusionscale.h:77-80 | entries [0][0], [1][1] and [2][2] are multiplied by the factor; the other thirteen entries keep their values |
| Geometry.ScaleDiagonalByOne | headers/occlusionscale.h:77-80 | rescaling by 1 gives back the same matrix |
| Geometry.ScaleDiagonalCompose | headers/occlusionscale.h:77-80 | two rescales in a row equal one rescale by the product of the factors |
| Geometry.ScaleDiagonalInverse | headers/occlusionscale.h:77-80 | a rescale by a non-zero factor is undone by a rescale by its reciprocal |
| OcclusionScale.BbXformed | headers/occlusionscale.h:138-158 | with no mesh channel or an unreadable mesh the buffer keeps its previous corners; otherwise min and max are each the world-matrix image of the mesh's min and max, with no re-sorting |
| OcclusionScale.ScanCount | headers/occlusionscale.h:102-118 | the loop's counter never exceeds the number of items visited |
| OcclusionScale.ScanCountCountsInside | headers/occlusionscale.h:102-118 | the counter equals the number of indices whose compared box lies strictly inside the subject's box |
| OcclusionScale.ScanBuffer | headers/occlusionscale.h:102-106 | after the loop has visited an item with a readable mesh, the B buffer holds that item's world-space box |
| OcclusionScale.ComparedBox | headers/occlusionscale.h:104-106 | an item with a readable mesh is compared through its own world-space box |
| OcclusionScale.ScanBufferHoldsLastMesh | headers/occlusionscale.h:104-106 | after any prefix of the loop, the B buffer holds the box of the last visited item that has a readable mesh |
| OcclusionScale.ScanBufferReusesStaleBox | headers/occlusionscale.h:142-156 | after a run of items without a readable mesh, the B buffer still holds the box it held before the run |
| OcclusionScale.ScanCountAllMeshes | headers/occlusionscale.h:101-118 | when every item has a readable mesh, the counter is the number of items whose own box is strictly inside the subject's |
| OcclusionScale.ScanCountMissesOne | headers/occlusionscale.h:102-117 | one visited index that is not counted keeps the counter at most one below the number of items |
| OcclusionScale.Ratio | headers/occlusionscale.h:133 | count / sel_count lies in [0, 1], times sel_count gives back the count, and is at most (n-1)/n < 1 when the count is at most n-1 |
| OcclusionScale.CheckOcclusion | headers/occlusionscale.h:95-136 | buffer A receives the subject's box and buffer B the last compared box; occlusion times sel_count is the number of indices strictly inside box A; it lies in [0, 1] and is at most (n-1)/n when the subject has a readable mesh |
| OcclusionScale.Rescale | headers/occlusionscale.h:66-93 | returns success whether or not the write is accepted; when accepted, only the three scale terms of item `ind` are multiplied by the factor; no other item and no mesh changes |
| OcclusionScale.RescaleByOneKeepsScene | headers/occlusionscale.h:75-83 | a rescale by 1 leaves the selection as it was |
| OcclusionScale.RescaleThenReciprocalRestores | headers/occlusionscale.h:75-83 | when the host accepts both writes, rescaling an item by a non-zero factor and then by its reciprocal restores the selection |
| OcclusionScale.DebugMatrix | headers/occlusionscale.h:120-131 | rows 0-3 of `bb` receive min A, min B, max A, max B in columns 0-2; column 3 is untouched |
| OcclusionScale.ConstructAsBuilt | headers/occlusionscale.h:44-52 | the built constructor leaves the selection unchanged and `occ` as passed, writes `bb` from the buffers its one call leaves, and its ratio lies in [0, 1] (below 1 if item 0 has a mesh) |
| OcclusionScale.AsBuiltIgnoresArguments | headers/occlusionscale.h:44-52 | threshold, iteration count and scale factor have no effect on the built constructor |
| PassLoop.Visit | headers/occlusionscale.h:57-61 | item `ind` is rescaled exactly when its ratio is above the threshold; no other item changes, and the ratio lies in [0, 1] |
| PassLoop.Sweep | headers/occlusionscale.h:55-62 | items not yet visited are unchanged; visited items differ only in their scale terms |
| PassLoop.Pass | headers/occlusionscale.h:55-62 | a pass keeps the selection's length, meshes and all non-scale matrix entries |
| PassLoop.Passes | headers/occlusionscale.h:53-63 | any number of passes changes nothing but scale terms |
| PassLoop.PassCount | headers/occlusionscale.h:53 | the pass count is the iteration argument converted to unsigned: equal to it when non-negative, congruent to it mod 2^32, below 2^32 |
| PassLoop.IntendedDriver | headers/occlusionscale.h:53-63 | the loop changes only scale terms |
| PassLoop.ConstructWithLoop | headers/occlusionscale.h:44-63 | with the loop restored, `occ` is still untouched, `bb` is what the live call wrote, and only scale terms change |
| PassLoop.SweepKeepsSceneAtHighThreshold | headers/occlusionscale.h:58-61 | with a threshold of 1 or more, a sweep rescales nothing |
| PassLoop.PassesKeepSceneAtHighThreshold | headers/occlusionscale.h:53-63 | with a threshold of 1 or more, no number of passes changes any transform |
| PassLoop.SweepKeepsSceneAtUnitScale | headers/occlusionscale.h:55-62 | with factor 1, a sweep changes no transform |
| PassLoop.PassesKeepSceneAtUnitScale | headers/occlusionscale.h:53-63 | with factor 1, no number of passes changes any transform |
| PassLoop.PassesCompose | headers/occlusionscale.h:53-63 | p passes followed by q passes are p + q passes, so each pass measures the geometry the earlier ones left |
| Command.CmdFlags | source/occlusionscale.cpp:60-68 | the command is declared undoable |
| Command.Execute | source/occlusionscale.cpp:85-139 | under two selected items: failure code and nothing changed; otherwise success, the three arguments go unchanged to the constructor, `occ` is untouched, and the built command never changes the selection |
| Command.Enable | source/occlusionscale.cpp:70-83 | the command is enabled exactly when at least two items are selected; `Command.EnableMatchesExecute` ties this to the execution's own guard |
| Command.EnableMatchesExecute | source/occlusionscale.cpp:70-83 | the command is enabled exactly when at least two items are selected, which is exactly when its execution succeeds |
| Command.RefusedExecuteIgnoresArgs | source/occlusionscale.cpp:113-117 | a refused execution does not depend on the arguments |
| Command.ExecuteChangesOnlyScale | source/occlusionscale.cpp:119-131 | any execution changes only scale terms, and with a threshold of 1 or more it changes nothing |
| Scenarios.MirroredCornersAreNotSorted | headers/occlusionscale.h:150-154 | under a mirroring matrix the transformed min corner lies above the transformed max corner |
| Scenarios.LocatorRepeatsPreviousBox | headers/occlusionscale.h:102-117 | big cube, small cube inside it, locator: the big cube's ratio is 2/3, because the locator repeats the small cube's box |
| Scenarios.MeshlessSubjectCanReachOne | headers/occlusionscale.h:97-117 | a subject without a mesh, measured with stale buffers, can reach the ratio 1 |
| Scenarios.OnePassOverThreeCubes | headers/occlusionscale.h:53-63 | one pass at threshold 0.3 and factor 0.5 over a big cube, a cube inside it and a far cube halves only the big cube |

## Left out

- PassLoop.ConstructWithLoop: its `bb` clause rests on the model's reading of the loop's two-argument `CheckOcclusion` calls (headers/occlusionscale.h:57) as leaving `bb` untouched; no such overload is declared, so the restored loop has no defined effect on `bb` to model.
- Floating point: `occlusion` is a 32-bit `float` and the threshold and scale arguments are `double`. All of them are modelled as `real`, so rounding of the ratio and of the scaled matrix entries is not modelled.
- `lx::Matrix4Multiply`, the host's world-matrix evaluation, `CLxUser_Mesh::BoundingBox` and `CLxUser_Locator::SetScale` are foreign calls. The first two are `Host` functions, the mesh bounds are item data, and `SetScale` is reduced to accepted (the local matrix becomes the rescaled one) or refused (nothing changes).
- Reads at the evaluation time and reads from the edit action layer are not told apart: there is one scene state.
- Selection service, item packet translation, channel lookup, scene and channel transactions: the selection is a sequence and an item's channels are its fields.
- The stray `ByIndex` call at source/occlusionscale.cpp:100 reads a packet that is never used, and is not modelled.
- `Evaluate`, `cmd_Desc`, `cmd_ButtonName`, `cmd_UserName`, the argument declarations, logging and server registration are host plumbing and are not modelled. So is undo/redo beyond the declared flag.
- shader_cel/celShader.cpp, the cel shader, is not part of this model. Its quantisation is floating-point `sqrt`/`floor` numerics, and the rest is host ABI plumbing. headers/plugin_debug.h declares logging wrappers only.
