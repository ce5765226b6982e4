/**
 The `items.occlusionScale` command of source/occlusionscale.cpp: its flags,
 its enable test, and its execution, which refuses a selection of fewer than
 two items and otherwise hands its three arguments to the `OcclusionScale`
 constructor.
 */
module Command {
  import opened Geometry
  import opened OcclusionScale
  import opened PassLoop

  /** The command flags the plugin can declare; it declares only the undo flag. */
  datatype CmdFlag = Undo

  /**
   The command's flags: it changes item transforms, so it is undoable and
   the host records its edits for undo and redo.
   */
  function CmdFlags(): (flags: set<CmdFlag>)
    ensures Undo in flags
  {
    {Undo}
  }

  /** The enable test: the command is available when at least two items are selected. */
  function Enable(selCount: nat): (enabled: bool)
    ensures enabled <==> 2 <= selCount
  {
    selCount >= 2
  }

  /** The three command arguments, by index: 0 `occlusion` (float), 1 `iterations` (integer), 2 `scale` (float). */
  datatype Args = Args(maxOcclusion: real, iterations: Int32, scale: real)

  /**
   Which constructor body runs: the one that is built, measuring item 0
   only, or the same body with its commented-out iteration loop restored.
   */
  datatype Build = AsBuilt | WithLoop

  /** The outcome of one execution: the message code, the selection afterwards, and the `occ` and `bb` outputs. */
  datatype Executed = Executed(code: Code, scene: Scene, occ: real, bb: Matrix)

  /**
   `cmd_Execute`: with fewer than two selected items it sets the failure
   code and returns before reading any argument or constructing anything.
   Otherwise it reads the arguments and passes them, unchanged, to the
   constructor; the message keeps its success code.
   */
  function Execute(build: Build, host: Host, scene: Scene, args: Args,
                   corners: Corners, occ: real, bb: Matrix): (r: Executed)
    ensures |scene| < 2 ==> r == Executed(Failed, scene, occ, bb)
    ensures 2 <= |scene| ==> r.code == Ok
    ensures r.occ == occ
    ensures |r.scene| == |scene|
    ensures build == AsBuilt ==> r.scene == scene
    ensures 2 <= |scene| ==>
      r.bb == ConstructAsBuilt(host, scene, args.maxOcclusion, args.iterations, args.scale, occ, bb, corners).bb
    ensures 2 <= |scene| && build == WithLoop ==>
      r.scene == ConstructWithLoop(host, scene, args.maxOcclusion, args.iterations, args.scale, occ, bb, corners).scene
  {
    if |scene| < 2 then
      Executed(Failed, scene, occ, bb)
    else
      var built := match build
        case AsBuilt =>
          ConstructAsBuilt(host, scene, args.maxOcclusion, args.iterations, args.scale, occ, bb, corners)
        case WithLoop =>
          ConstructWithLoop(host, scene, args.maxOcclusion, args.iterations, args.scale, occ, bb, corners);
      Executed(Ok, built.scene, built.occ, built.bb)
  }

  /** The command runs through exactly when the enable test passes. */
  lemma EnableMatchesExecute(build: Build, host: Host, scene: Scene, args: Args,
                             corners: Corners, occ: real, bb: Matrix)
    ensures Enable(|scene|) <==> Execute(build, host, scene, args, corners, occ, bb).code == Ok
  {
  }

  /** A refused execution depends on no argument: it returns before reading them. */
  lemma RefusedExecuteIgnoresArgs(build: Build, host: Host, scene: Scene, args1: Args, args2: Args,
                                  corners: Corners, occ: real, bb: Matrix)
    requires !Enable(|scene|)
    ensures Execute(build, host, scene, args1, corners, occ, bb)
         == Execute(build, host, scene, args2, corners, occ, bb)
  {
  }

  /**
   Whatever the build, an execution with a threshold of 1 or more leaves
   every selected item's transform unchanged, and any execution changes at
   most the three scale terms of the selected items' local matrices.
   */
  lemma ExecuteChangesOnlyScale(build: Build, host: Host, scene: Scene, args: Args,
                                corners: Corners, occ: real, bb: Matrix)
    ensures SameExceptScale(scene, Execute(build, host, scene, args, corners, occ, bb).scene)
    ensures 1.0 <= args.maxOcclusion ==> Execute(build, host, scene, args, corners, occ, bb).scene == scene
  {
    var r := Execute(build, host, scene, args, corners, occ, bb);
    if 2 <= |scene| && build == WithLoop {
      var built := ConstructAsBuilt(host, scene, args.maxOcclusion, args.iterations, args.scale, occ, bb, corners);
      var st := PassState(scene, built.corners, built.occlusion);
      if 1.0 <= args.maxOcclusion {
        PassesKeepSceneAtHighThreshold(host, st, PassCount(args.iterations), args.maxOcclusion, args.scale);
      }
    } else {
      assert r.scene == scene;
    }
  }
}
