/**
 The iteration loop of the `OcclusionScale` constructor that is commented
 out in headers/occlusionscale.h: for each of `iterations` passes, visit the
 selected items in order, measure each one with `CheckOcclusion` and rescale
 it when its ratio exceeds the threshold. Each visit sees the selection as
 the earlier visits (of this pass and of earlier passes) left it, and the
 member buffers carry over from one `CheckOcclusion` call to the next.
 */
module PassLoop {
  import opened Geometry
  import opened OcclusionScale

  /** The state the loop threads: the selection, the member buffers and the `occlusion` member. */
  datatype PassState = PassState(scene: Scene, corners: Corners, occlusion: real)

  /**
   Two items that differ at most in the three diagonal scale terms of their
   local matrices: same mesh, and the other thirteen entries equal.
   */
  ghost predicate SameItemExceptScale(x: Item, y: Item) {
    && x.mesh == y.mesh
    && forall r, c | 0 <= r < 4 && 0 <= c < 4 && !IsScaleEntry(r, c) :: x.local[r][c] == y.local[r][c]
  }

  /** Two selections of the same length whose items pairwise differ at most in their scale terms. */
  ghost predicate SameExceptScale(s1: Scene, s2: Scene) {
    && |s1| == |s2|
    && forall i | 0 <= i < |s1| :: SameItemExceptScale(s1[i], s2[i])
  }

  lemma SameExceptScaleTransitive(s1: Scene, s2: Scene, s3: Scene)
    requires SameExceptScale(s1, s2) && SameExceptScale(s2, s3)
    ensures SameExceptScale(s1, s3)
  {
    forall i | 0 <= i < |s1|
      ensures SameItemExceptScale(s1[i], s3[i])
    {
      assert SameItemExceptScale(s1[i], s2[i]) && SameItemExceptScale(s2[i], s3[i]);
    }
  }

  /**
   One step of the inner loop: measure item `ind`, then rescale it exactly
   when its ratio is above `maxOcclusion`. Only item `ind` can change, and
   only in its scale terms.
   */
  function Visit(host: Host, st: PassState, ind: nat, maxOcclusion: real, scale: real): (r: PassState)
    requires ind < |st.scene|
    ensures |r.scene| == |st.scene|
    ensures forall j | 0 <= j < |st.scene| && j != ind :: r.scene[j] == st.scene[j]
    ensures SameExceptScale(st.scene, r.scene)
    ensures 0.0 <= r.occlusion <= 1.0
    ensures r.occlusion <= maxOcclusion ==> r.scene == st.scene
    ensures r.occlusion > maxOcclusion ==> r.scene == Rescale(host, st.scene, ind, scale).scene
    ensures r.corners == CheckOcclusion(host, st.scene, ind, st.corners).corners
    ensures r.occlusion == CheckOcclusion(host, st.scene, ind, st.corners).occlusion
  {
    var checked := CheckOcclusion(host, st.scene, ind, st.corners);
    if checked.occlusion > maxOcclusion then
      PassState(Rescale(host, st.scene, ind, scale).scene, checked.corners, checked.occlusion)
    else
      PassState(st.scene, checked.corners, checked.occlusion)
  }

  /**
   The inner loop over the first `k` selected items. Items from `k` on have
   not been visited and are as they were; the rest differ at most in their
   scale terms.
   */
  function Sweep(host: Host, st: PassState, k: nat, maxOcclusion: real, scale: real): (r: PassState)
    requires k <= |st.scene|
    ensures |r.scene| == |st.scene|
    ensures forall j | k <= j < |st.scene| :: r.scene[j] == st.scene[j]
    ensures SameExceptScale(st.scene, r.scene)
  {
    if k == 0 then st
    else
      var before := Sweep(host, st, k - 1, maxOcclusion, scale);
      var r := Visit(host, before, k - 1, maxOcclusion, scale);
      SameExceptScaleTransitive(st.scene, before.scene, r.scene);
      r
  }

  /** One full pass: a sweep over every selected item. */
  function Pass(host: Host, st: PassState, maxOcclusion: real, scale: real): (r: PassState)
    ensures |r.scene| == |st.scene|
    ensures SameExceptScale(st.scene, r.scene)
  {
    Sweep(host, st, |st.scene|, maxOcclusion, scale)
  }

  /** `p` applications of `step`, each to the state the previous one left. */
  function Iterate(step: PassState -> PassState, st: PassState, p: nat): PassState
  {
    if p == 0 then st else step(Iterate(step, st, p - 1))
  }

  lemma {:induction false} IterateCompose(step: PassState -> PassState, st: PassState, p: nat, q: nat)
    ensures Iterate(step, st, p + q) == Iterate(step, Iterate(step, st, p), q)
  {
    if q > 0 {
      IterateCompose(step, st, p, q - 1);
    }
  }

  lemma {:induction false} IterateKeepsScene(step: PassState -> PassState, st: PassState, p: nat)
    requires forall x: PassState :: step(x).scene == x.scene
    ensures Iterate(step, st, p).scene == st.scene
  {
    if p > 0 {
      IterateKeepsScene(step, st, p - 1);
    }
  }

  lemma {:induction false} IterateKeepsShape(step: PassState -> PassState, st: PassState, p: nat)
    requires forall x: PassState :: SameExceptScale(x.scene, step(x).scene)
    ensures SameExceptScale(st.scene, Iterate(step, st, p).scene)
  {
    if p > 0 {
      IterateKeepsShape(step, st, p - 1);
      var before := Iterate(step, st, p - 1);
      SameExceptScaleTransitive(st.scene, before.scene, step(before).scene);
    }
  }

  /** `p` full passes, each starting from the selection and buffers the previous one left. */
  function Passes(host: Host, st: PassState, p: nat, maxOcclusion: real, scale: real): (r: PassState)
    ensures SameExceptScale(st.scene, r.scene)
  {
    var step := x => Pass(host, x, maxOcclusion, scale);
    IterateKeepsShape(step, st, p);
    Iterate(step, st, p)
  }

  /**
   The number of passes the loop makes: its counter is `unsigned`, so the
   comparison with the `int` argument converts it, and a negative count
   wraps to a count near 2^32.
   */
  function PassCount(iterations: Int32): (p: nat)
    ensures p < 0x1_0000_0000
    ensures p % 0x1_0000_0000 == (iterations as int) % 0x1_0000_0000
    ensures 0 <= iterations ==> p == iterations as int
  {
    if iterations < 0 then iterations as int + 0x1_0000_0000 else iterations as int
  }

  /** The commented-out loop, from the state the live `CheckOcclusion` call left. */
  function IntendedDriver(host: Host, st: PassState, maxOcclusion: real, iterations: Int32, scale: real): (r: PassState)
    ensures SameExceptScale(st.scene, r.scene)
  {
    Passes(host, st, PassCount(iterations), maxOcclusion, scale)
  }

  /**
   The constructor with its loop uncommented: the live call measuring item 0
   (which writes `bb`), then the loop. `occ` is still never written. The
   loop calls `CheckOcclusion` with two arguments, which no declaration of
   the class accepts; this model reads those calls as the three-argument
   check without the debug output, so `bb` keeps what the live call wrote.
   */
  function ConstructWithLoop(host: Host, scene: Scene, maxOcclusion: real, iterations: Int32, scale: real,
                             occ: real, bb: Matrix, corners: Corners): (r: Constructed)
    requires 1 <= |scene|
    ensures r.occ == occ
    ensures r.bb == ConstructAsBuilt(host, scene, maxOcclusion, iterations, scale, occ, bb, corners).bb
    ensures SameExceptScale(scene, r.scene)
  {
    var built := ConstructAsBuilt(host, scene, maxOcclusion, iterations, scale, occ, bb, corners);
    var st := IntendedDriver(host, PassState(scene, built.corners, built.occlusion), maxOcclusion, iterations, scale);
    Constructed(st.scene, occ, built.bb, st.occlusion, st.corners)
  }

  /** With a threshold of 1 or more no ratio exceeds it, so a sweep rescales nothing. */
  lemma {:induction false} SweepKeepsSceneAtHighThreshold(host: Host, st: PassState, k: nat, maxOcclusion: real, scale: real)
    requires k <= |st.scene| && 1.0 <= maxOcclusion
    ensures Sweep(host, st, k, maxOcclusion, scale).scene == st.scene
  {
    if k > 0 {
      SweepKeepsSceneAtHighThreshold(host, st, k - 1, maxOcclusion, scale);
    }
  }

  /** With a threshold of 1 or more, any number of passes leaves every item's transform as it was. */
  lemma PassesKeepSceneAtHighThreshold(host: Host, st: PassState, p: nat, maxOcclusion: real, scale: real)
    requires 1.0 <= maxOcclusion
    ensures Passes(host, st, p, maxOcclusion, scale).scene == st.scene
  {
    var step := x => Pass(host, x, maxOcclusion, scale);
    forall x: PassState
      ensures step(x).scene == x.scene
    {
      SweepKeepsSceneAtHighThreshold(host, x, |x.scene|, maxOcclusion, scale);
    }
    IterateKeepsScene(step, st, p);
  }

  /** With a scale factor of 1 the ratios are still measured, but a sweep changes no transform. */
  lemma {:induction false} SweepKeepsSceneAtUnitScale(host: Host, st: PassState, k: nat, maxOcclusion: real)
    requires k <= |st.scene|
    ensures Sweep(host, st, k, maxOcclusion, 1.0).scene == st.scene
  {
    if k > 0 {
      SweepKeepsSceneAtUnitScale(host, st, k - 1, maxOcclusion);
      RescaleByOneKeepsScene(host, st.scene, k - 1);
    }
  }

  /** With a scale factor of 1, any number of passes leaves every item's transform as it was. */
  lemma PassesKeepSceneAtUnitScale(host: Host, st: PassState, p: nat, maxOcclusion: real)
    ensures Passes(host, st, p, maxOcclusion, 1.0).scene == st.scene
  {
    var step := x => Pass(host, x, maxOcclusion, 1.0);
    forall x: PassState
      ensures step(x).scene == x.scene
    {
      SweepKeepsSceneAtUnitScale(host, x, |x.scene|, maxOcclusion);
    }
    IterateKeepsScene(step, st, p);
  }

  /**
   Passes run one after another on the state the earlier ones left: `p`
   passes followed by `q` more are `p + q` passes, so a later pass measures
   the geometry that earlier rescales produced.
   */
  lemma PassesCompose(host: Host, st: PassState, p: nat, q: nat, maxOcclusion: real, scale: real)
    ensures Passes(host, st, p + q, maxOcclusion, scale)
         == Passes(host, Passes(host, st, p, maxOcclusion, scale), q, maxOcclusion, scale)
  {
    IterateCompose(x => Pass(host, x, maxOcclusion, scale), st, p, q);
  }
}
