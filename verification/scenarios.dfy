/**
 Worked instances of the occlusion check and the pass loop on small
 concrete selections. The host used here transforms a point by the
 diagonal of the item's own local matrix (a stand-in for a world matrix of
 pure axis scales, with unparented items) and accepts every scale write.
 */
module Scenarios {
  import opened Geometry
  import opened OcclusionScale
  import opened PassLoop

  const Identity: Matrix :=
    [[1.0, 0.0, 0.0, 0.0], [0.0, 1.0, 0.0, 0.0], [0.0, 0.0, 1.0, 0.0], [0.0, 0.0, 0.0, 1.0]]

  /** The matrix mirroring the x axis. */
  const MirrorX: Matrix :=
    [[-1.0, 0.0, 0.0, 0.0], [0.0, 1.0, 0.0, 0.0], [0.0, 0.0, 1.0, 0.0], [0.0, 0.0, 0.0, 1.0]]

  function AxisScaleHost(): Host {
    Host(
      (m: Matrix, p: Vec) => [m[0][0] * p[0], m[1][1] * p[1], m[2][2] * p[2]],
      (s: Scene, i: nat) => if i < |s| then s[i].local else Identity,
      (s: Scene, i: nat) => true)
  }

  /** The cube from (lo, lo, lo) to (hi, hi, hi). */
  function Cube(lo: real, hi: real): Box {
    Box([lo, lo, lo], [hi, hi, hi])
  }

  function MeshItem(lo: real, hi: real): Item {
    Item(Identity, Readable(Cube(lo, hi)))
  }

  /** An item without a mesh channel, such as a locator. */
  const Locator: Item := Item(Identity, NoMeshChannel)

  /**
   A box transformed by a mirroring matrix keeps its corners apart but out
   of order: the transformed min corner lies above the transformed max
   corner on x.
   */
  lemma MirroredCornersAreNotSorted(prev: Box)
    ensures var r := BbXformed(AxisScaleHost(), [Item(MirrorX, Readable(Cube(-1.0, 1.0)))], 0, prev);
      r.min[0] == 1.0 && r.max[0] == -1.0
  {
  }

  /**
   A locator right after an item that lies inside the subject is counted a
   second time: it leaves the B buffer holding that item's box. With a big
   cube, a small cube inside it and a locator, the big cube's ratio is 2/3
   although one box only lies inside it.
   */
  lemma LocatorRepeatsPreviousBox(corners: Corners)
    ensures CheckOcclusion(AxisScaleHost(), [MeshItem(-10.0, 10.0), MeshItem(-1.0, 1.0), Locator], 0, corners).occlusion
         == 2.0 / 3.0
  {
    var host := AxisScaleHost();
    var scene := [MeshItem(-10.0, 10.0), MeshItem(-1.0, 1.0), Locator];
    var a := BbXformed(host, scene, 0, corners.a);
    assert a == Cube(-10.0, 10.0);
    assert ComparedBox(host, scene, 0, corners.b) == Cube(-10.0, 10.0);
    assert ComparedBox(host, scene, 1, corners.b) == Cube(-1.0, 1.0);
    assert ComparedBox(host, scene, 2, corners.b) == Cube(-1.0, 1.0);
    assert ScanCount(host, scene, a, 1, corners.b) == 0;
    assert ScanCount(host, scene, a, 2, corners.b) == 1;
    assert ScanCount(host, scene, a, 3, corners.b) == 2;
  }

  /**
   A subject without a mesh is measured with the stale box A, and its own
   turn in the loop compares the stale box B: with buffers left holding a
   large and a small cube, a locator followed by a tiny cube reaches the
   ratio 1.
   */
  lemma MeshlessSubjectCanReachOne()
    ensures CheckOcclusion(AxisScaleHost(), [Locator, MeshItem(-1.0, 1.0)], 0,
                           Corners(Cube(-100.0, 100.0), Cube(-2.0, 2.0))).occlusion == 1.0
  {
    var host := AxisScaleHost();
    var scene := [Locator, MeshItem(-1.0, 1.0)];
    var b0 := Cube(-2.0, 2.0);
    var a := BbXformed(host, scene, 0, Cube(-100.0, 100.0));
    assert a == Cube(-100.0, 100.0);
    assert !scene[0].mesh.Readable?;
    assert ScanBuffer(host, scene, 1, b0) == BbXformed(host, scene, 0, ScanBuffer(host, scene, 0, b0));
    assert ComparedBox(host, scene, 0, b0) == b0;
    assert ComparedBox(host, scene, 1, b0) == Cube(-1.0, 1.0);
    assert ScanCount(host, scene, a, 1, b0) == 1;
    assert ScanCount(host, scene, a, 2, b0) == 2;
  }

  /** A big cube, a small cube inside it, and a cube far away from both. */
  function ThreeCubes(): Scene {
    [MeshItem(-10.0, 10.0), MeshItem(-1.0, 1.0), MeshItem(20.0, 30.0)]
  }

  /**
   One pass over the three cubes with threshold 0.3 and factor 0.5: the
   big cube holds one of three boxes, 1/3 > 0.3, and is rescaled; then
   nothing lies inside the small or the far cube, and they keep their
   transforms.
   */
  lemma OnePassOverThreeCubes(corners: Corners)
    ensures var r := Pass(AxisScaleHost(), PassState(ThreeCubes(), corners, 0.0), 0.3, 0.5);
      && r.scene[0].local == ScaleDiagonal(Identity, 0.5)
      && r.scene[1] == ThreeCubes()[1]
      && r.scene[2] == ThreeCubes()[2]
  {
    var host := AxisScaleHost();
    var s0 := ThreeCubes();
    var st0 := PassState(s0, corners, 0.0);

    // Visit 0: the big cube contains the small one only.
    var c0 := CheckOcclusion(host, s0, 0, st0.corners);
    var a0 := c0.corners.a;
    assert a0 == Cube(-10.0, 10.0);
    assert ComparedBox(host, s0, 0, corners.b) == Cube(-10.0, 10.0);
    assert ComparedBox(host, s0, 1, corners.b) == Cube(-1.0, 1.0);
    assert ComparedBox(host, s0, 2, corners.b) == Cube(20.0, 30.0);
    assert ScanCount(host, s0, a0, 1, corners.b) == 0;
    assert ScanCount(host, s0, a0, 2, corners.b) == 1;
    assert ScanCount(host, s0, a0, 3, corners.b) == 1;
    assert c0.occlusion == 1.0 / 3.0;
    var st1 := Visit(host, st0, 0, 0.3, 0.5);
    var s1 := st1.scene;
    assert s1 == s0[0 := s0[0].(local := ScaleDiagonal(Identity, 0.5))];
    assert st1 == Sweep(host, st0, 1, 0.3, 0.5);

    // Visit 1: the small cube contains nothing, not even the halved big cube.
    var c1 := CheckOcclusion(host, s1, 1, st1.corners);
    var a1 := c1.corners.a;
    var b1 := st1.corners.b;
    assert a1 == Cube(-1.0, 1.0);
    assert ComparedBox(host, s1, 0, b1) == Cube(-5.0, 5.0);
    assert ComparedBox(host, s1, 1, b1) == Cube(-1.0, 1.0);
    assert ComparedBox(host, s1, 2, b1) == Cube(20.0, 30.0);
    assert ScanCount(host, s1, a1, 1, b1) == 0;
    assert ScanCount(host, s1, a1, 2, b1) == 0;
    assert ScanCount(host, s1, a1, 3, b1) == 0;
    var st2 := Visit(host, st1, 1, 0.3, 0.5);
    assert st2.scene == s1;
    assert st2 == Sweep(host, st0, 2, 0.3, 0.5);

    // Visit 2: the far cube contains nothing.
    var c2 := CheckOcclusion(host, s1, 2, st2.corners);
    var a2 := c2.corners.a;
    var b2 := st2.corners.b;
    assert a2 == Cube(20.0, 30.0);
    assert ComparedBox(host, s1, 0, b2) == Cube(-5.0, 5.0);
    assert ComparedBox(host, s1, 1, b2) == Cube(-1.0, 1.0);
    assert ComparedBox(host, s1, 2, b2) == Cube(20.0, 30.0);
    assert ScanCount(host, s1, a2, 1, b2) == 0;
    assert ScanCount(host, s1, a2, 2, b2) == 0;
    assert ScanCount(host, s1, a2, 3, b2) == 0;
    var st3 := Visit(host, st2, 2, 0.3, 0.5);
    assert st3.scene == s1;
    assert st3 == Sweep(host, st0, 3, 0.3, 0.5);
  }
}
