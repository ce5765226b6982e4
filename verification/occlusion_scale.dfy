/**
 The `OcclusionScale` class of headers/occlusionscale.h: transforming an
 item's mesh bounds into world space (`bbXformed`), measuring how many
 selected items lie strictly inside one item's box (`CheckOcclusion`),
 rescaling an item's local matrix (`Rescale`), and the constructor as it is
 built, which measures item 0 only.

 The class keeps its two working boxes (A for the subject, B for the item
 being compared) in member buffers that persist between calls; they are
 threaded through explicitly as `Corners`. The host application is a
 `Host` value: its point transform, its evaluation of an item's world
 matrix, and its answer to a scale write are plain function parameters.
 */
module OcclusionScale {
  import opened Geometry

  datatype Option<T> = None | Some(value: T)

  /** What the item's mesh channel yields: no such channel, an unreadable mesh object, or a mesh with its local bounds. */
  datatype MeshChannel = NoMeshChannel | Unreadable | Readable(bounds: Box)

  /** One selected item: its local transform and its mesh channel. */
  datatype Item = Item(local: Matrix, mesh: MeshChannel)

  /** The selected items, in selection order; the selection index is the sequence index. */
  type Scene = seq<Item>

  /**
   The host services the class calls into and this model does not see:
   the point-by-matrix product, the world matrix the host evaluates for the
   selected item with a given index (from the current state of the selected
   items), and whether the host accepts a local scale write for that item.
   */
  datatype Host = Host(
    xformPoint: (Matrix, Vec) -> Vec,
    worldMatrix: (Scene, nat) -> Matrix,
    acceptsScale: (Scene, nat) -> bool)

  /** The member buffers bb_min_a/bb_max_a (box `a`) and bb_min_b/bb_max_b (box `b`). */
  datatype Corners = Corners(a: Box, b: Box)

  datatype Code = Ok | Failed

  /** The C++ `int` the iteration count arrives in. */
  newtype Int32 = x: int | -0x8000_0000 <= x < 0x8000_0000

  /** The world-space corners of item `i`'s mesh bounds, or None when it has no readable mesh. */
  function Resolve(host: Host, scene: Scene, i: nat): Option<Box>
    requires i < |scene|
  {
    match scene[i].mesh
    case Readable(bounds) =>
      var world := host.worldMatrix(scene, i);
      Some(Box(host.xformPoint(world, bounds.min), host.xformPoint(world, bounds.max)))
    case _ => None
  }

  /**
   `bbXformed`: the new contents of a box buffer that held `prev` after the
   world-space bounds of item `i` are written into it. Each corner is
   transformed on its own and nothing re-sorts them; when the item has no
   mesh channel or its mesh cannot be read the buffer keeps `prev`.
   */
  function BbXformed(host: Host, scene: Scene, i: nat, prev: Box): (r: Box)
    requires i < |scene|
    ensures !scene[i].mesh.Readable? ==> r == prev
    ensures scene[i].mesh.Readable? ==>
      && r.min == host.xformPoint(host.worldMatrix(scene, i), scene[i].mesh.bounds.min)
      && r.max == host.xformPoint(host.worldMatrix(scene, i), scene[i].mesh.bounds.max)
  {
    match Resolve(host, scene, i)
    case Some(box) => box
    case None => prev
  }

  /** No item with index in [lo, hi) has a readable mesh. */
  predicate NoMeshBetween(scene: Scene, lo: nat, hi: nat)
    requires hi <= |scene|
  {
    forall j | lo <= j < hi :: !scene[j].mesh.Readable?
  }

  /**
   The B buffer after the comparison loop has visited items 0 .. k-1,
   starting from `b0`. When the last visited item has a readable mesh the
   buffer holds that item's world-space box.
   */
  function ScanBuffer(host: Host, scene: Scene, k: nat, b0: Box): (b: Box)
    requires k <= |scene|
    ensures 0 < k && scene[k - 1].mesh.Readable? ==> b == Resolve(host, scene, k - 1).value
  {
    if k == 0 then b0
    else BbXformed(host, scene, k - 1, ScanBuffer(host, scene, k - 1, b0))
  }

  /**
   The box in the B buffer when item `i` is compared: the buffer after the
   loop has visited items 0 .. i. An item with a readable mesh is compared
   through its own world-space box (any other item through the box the
   buffer already held, see `ScanBufferReusesStaleBox`).
   */
  function ComparedBox(host: Host, scene: Scene, i: nat, b0: Box): (b: Box)
    requires i < |scene|
    ensures scene[i].mesh.Readable? ==> b == Resolve(host, scene, i).value
  {
    ScanBuffer(host, scene, i + 1, b0)
  }

  /** The occlusion counter after the comparison loop has visited items 0 .. k-1 against box `a`. */
  function ScanCount(host: Host, scene: Scene, a: Box, k: nat, b0: Box): (count: nat)
    requires k <= |scene|
    ensures count <= k
  {
    if k == 0 then 0
    else
      ScanCount(host, scene, a, k - 1, b0)
      + (if StrictlyInside(ComparedBox(host, scene, k - 1, b0), a) then 1 else 0)
  }

  /** The indices below `k` at which the box in the B buffer was strictly inside `a`. */
  function InsideIndices(host: Host, scene: Scene, a: Box, k: nat, b0: Box): set<nat>
    requires k <= |scene|
  {
    set i: nat | i < k && StrictlyInside(ComparedBox(host, scene, i, b0), a)
  }

  /** The loop's counter is the number of indices whose compared box lies strictly inside `a`. */
  lemma {:induction false} ScanCountCountsInside(host: Host, scene: Scene, a: Box, k: nat, b0: Box)
    requires k <= |scene|
    ensures ScanCount(host, scene, a, k, b0) == |InsideIndices(host, scene, a, k, b0)|
  {
    if k > 0 {
      ScanCountCountsInside(host, scene, a, k - 1, b0);
      var before := InsideIndices(host, scene, a, k - 1, b0);
      var after := InsideIndices(host, scene, a, k, b0);
      if StrictlyInside(ComparedBox(host, scene, k - 1, b0), a) {
        assert after == before + {k - 1};
      } else {
        assert after == before;
      }
    }
  }

  /**
   Items without a readable mesh leave the B buffer alone: after a run of
   them, the buffer still holds the box of the last item before the run
   that had one (or the buffer's earlier contents).
   */
  lemma {:induction false} ScanBufferReusesStaleBox(host: Host, scene: Scene, i: nat, k: nat, b0: Box)
    requires i <= k <= |scene|
    requires NoMeshBetween(scene, i, k)
    ensures ScanBuffer(host, scene, k, b0) == ScanBuffer(host, scene, i, b0)
  {
    if k > i {
      ScanBufferReusesStaleBox(host, scene, i, k - 1, b0);
    }
  }

  /**
   After the loop has visited items 0 .. k-1, the B buffer holds the
   world-space box of the last of them that has a readable mesh.
   */
  lemma {:induction false} ScanBufferHoldsLastMesh(host: Host, scene: Scene, j: nat, k: nat, b0: Box)
    requires j < k <= |scene|
    requires scene[j].mesh.Readable? && NoMeshBetween(scene, j + 1, k)
    ensures ScanBuffer(host, scene, k, b0) == Resolve(host, scene, j).value
  {
    ScanBufferReusesStaleBox(host, scene, j + 1, k, b0);
  }

  /**
   When every selected item has a readable mesh, the counter is the number
   of items whose own world-space box lies strictly inside `a`.
   */
  lemma {:induction false} ScanCountAllMeshes(host: Host, scene: Scene, a: Box, k: nat, b0: Box)
    requires k <= |scene|
    requires forall j | 0 <= j < |scene| :: scene[j].mesh.Readable?
    ensures ScanCount(host, scene, a, k, b0)
         == |set i: nat | i < k && StrictlyInside(Resolve(host, scene, i).value, a)|
  {
    ScanCountCountsInside(host, scene, a, k, b0);
    var lhs := InsideIndices(host, scene, a, k, b0);
    var rhs := set i: nat | i < k && StrictlyInside(Resolve(host, scene, i).value, a);
    assert lhs == rhs;
  }

  /** If the loop saw one index whose box was not inside `a`, the counter stays below the number of items visited. */
  lemma {:induction false} ScanCountMissesOne(host: Host, scene: Scene, a: Box, k: nat, b0: Box, miss: nat)
    requires k <= |scene|
    ensures miss < k && !StrictlyInside(ComparedBox(host, scene, miss, b0), a) ==>
      ScanCount(host, scene, a, k, b0) <= k - 1
  {
    if miss < k - 1 {
      ScanCountMissesOne(host, scene, a, k - 1, b0, miss);
    }
  }

  /** The [0, 1] bound of `occlusion /= sel_count` for a count of at most `sel_count`, and that the division can be undone. */
  lemma DivisionBounds(c: real, n: real)
    requires 0.0 < n && 0.0 <= c <= n
    ensures 0.0 <= c / n <= 1.0
    ensures (c / n) * n == c
  {
    var r := c / n;
    assert r * n == c;
  }

  /** The (n-1)/n < 1 bound of `occlusion /= sel_count` when at least one index was not counted. */
  lemma DivisionBelowOne(c: real, n: real)
    requires 1.0 <= n
    ensures c <= n - 1.0 ==> c / n <= (n - 1.0) / n < 1.0
  {
    var r := (n - 1.0) / n;
    assert r * n == n - 1.0;
    var x := c / n;
    assert x * n == c;
  }

  /** count / n, with the bounds that a count of at most n (or n - 1) gives it. */
  function Ratio(count: nat, n: nat): (r: real)
    requires 0 < n && count <= n
    ensures 0.0 <= r <= 1.0
    ensures r * (n as real) == count as real
    ensures count <= n - 1 ==> r <= ((n - 1) as real) / (n as real) < 1.0
  {
    DivisionBounds(count as real, n as real);
    DivisionBelowOne(count as real, n as real);
    (count as real) / (n as real)
  }

  /** The result of one `CheckOcclusion` call: the `occlusion` value and the buffers it leaves behind. */
  datatype Checked = Checked(occlusion: real, corners: Corners)

  /**
   `CheckOcclusion(ind, occlusion, bb)`: writes item `ind`'s box into buffer
   A, then compares the box every selected item (including `ind` itself)
   writes into buffer B against it, and divides the number strictly inside
   by the selection count. The previous value of `occlusion` plays no part.
   When the subject has a readable mesh it is compared with its own box,
   which strict containment never counts, so the ratio stays below one.
   */
  function CheckOcclusion(host: Host, scene: Scene, ind: nat, corners: Corners): (r: Checked)
    requires ind < |scene|
    ensures r.corners.a == BbXformed(host, scene, ind, corners.a)
    ensures r.corners.b == ScanBuffer(host, scene, |scene|, corners.b)
    ensures r.occlusion * (|scene| as real)
         == |InsideIndices(host, scene, r.corners.a, |scene|, corners.b)| as real
    ensures 0.0 <= r.occlusion <= 1.0
    ensures scene[ind].mesh.Readable? ==>
      r.occlusion <= ((|scene| - 1) as real) / (|scene| as real) < 1.0
  {
    var n := |scene|;
    var a := BbXformed(host, scene, ind, corners.a);
    var count := ScanCount(host, scene, a, n, corners.b);
    ScanCountCountsInside(host, scene, a, n, corners.b);
    ScanCountMissesOne(host, scene, a, n, corners.b, ind);
    Checked(Ratio(count, n), Corners(a, ScanBuffer(host, scene, n, corners.b)))
  }

  /** The result of one `Rescale` call: its return code and the selection after the write. */
  datatype Rescaled = Rescaled(code: Code, scene: Scene)

  /**
   `Rescale(ind, scale)`: reads item `ind`'s local matrix, multiplies its
   three diagonal scale terms by `scale` and asks the host to write it back
   as the item's local scale. A refused write is ignored: the call reports
   success either way, and then nothing changes. No other item changes.
   */
  function Rescale(host: Host, scene: Scene, ind: nat, scale: real): (r: Rescaled)
    requires ind < |scene|
    ensures r.code == Ok
    ensures |r.scene| == |scene|
    ensures forall j | 0 <= j < |scene| && j != ind :: r.scene[j] == scene[j]
    ensures r.scene[ind].mesh == scene[ind].mesh
    ensures forall i, j | 0 <= i < 4 && 0 <= j < 4 ::
      r.scene[ind].local[i][j]
        == if host.acceptsScale(scene, ind) && IsScaleEntry(i, j)
           then scene[ind].local[i][j] * scale
           else scene[ind].local[i][j]
  {
    var item := scene[ind];
    var scaled := ScaleDiagonal(item.local, scale);
    if host.acceptsScale(scene, ind) then
      Rescaled(Ok, scene[ind := item.(local := scaled)])
    else
      Rescaled(Ok, scene)
  }

  /** Rescaling by a factor of 1 writes back the matrix that was read. */
  lemma RescaleByOneKeepsScene(host: Host, scene: Scene, ind: nat)
    requires ind < |scene|
    ensures Rescale(host, scene, ind, 1.0).scene == scene
  {
    ScaleDiagonalByOne(scene[ind].local);
    assert scene[ind := scene[ind].(local := ScaleDiagonal(scene[ind].local, 1.0))] == scene;
  }

  /**
   A rescale by a non-zero factor followed by a rescale of the same item by
   its reciprocal restores the selection, when the host accepts both writes.
   */
  lemma RescaleThenReciprocalRestores(host: Host, scene: Scene, ind: nat, scale: real)
    requires ind < |scene| && scale != 0.0
    requires host.acceptsScale(scene, ind)
    requires host.acceptsScale(Rescale(host, scene, ind, scale).scene, ind)
    ensures Rescale(host, Rescale(host, scene, ind, scale).scene, ind, 1.0 / scale).scene == scene
  {
    var once := Rescale(host, scene, ind, scale).scene;
    ScaleDiagonalInverse(scene[ind].local, scale);
    assert once[ind].local == ScaleDiagonal(scene[ind].local, scale);
    assert once[ind := once[ind].(local := ScaleDiagonal(once[ind].local, 1.0 / scale))] == scene;
  }

  /**
   The debug matrix `bb` after `CheckOcclusion`: rows 0 to 3 receive the
   first three coordinates of min A, min B, max A and max B; column 3 keeps
   what the caller's matrix held.
   */
  function DebugMatrix(bb: Matrix, corners: Corners): (r: Matrix)
    ensures forall j | 0 <= j < 3 ::
      && r[0][j] == corners.a.min[j]
      && r[1][j] == corners.b.min[j]
      && r[2][j] == corners.a.max[j]
      && r[3][j] == corners.b.max[j]
    ensures forall i | 0 <= i < 4 :: r[i][3] == bb[i][3]
  {
    [ corners.a.min + [bb[0][3]],
      corners.b.min + [bb[1][3]],
      corners.a.max + [bb[2][3]],
      corners.b.max + [bb[3][3]] ]
  }

  /** What the constructor leaves behind: the selection, the `occ` and `bb` outputs, its `occlusion` member and buffers. */
  datatype Constructed = Constructed(scene: Scene, occ: real, bb: Matrix, occlusion: real, corners: Corners)

  /**
   The constructor as it is built: it runs `CheckOcclusion` on item 0 only.
   It never rescales anything, ignores the threshold, iteration count and
   scale factor, writes the debug matrix `bb`, and leaves `occ` as the
   caller passed it, since the line copying the ratio out is commented out.
   `corners` is whatever the never-initialised buffers hold.
   */
  function ConstructAsBuilt(host: Host, scene: Scene, maxOcclusion: real, iterations: Int32, scale: real,
                            occ: real, bb: Matrix, corners: Corners): (r: Constructed)
    requires 1 <= |scene|
    ensures r.scene == scene
    ensures r.occ == occ
    ensures 0.0 <= r.occlusion <= 1.0
    ensures scene[0].mesh.Readable? ==> r.occlusion < 1.0
    ensures r.bb == DebugMatrix(bb, r.corners)
    ensures r.corners == CheckOcclusion(host, scene, 0, corners).corners
  {
    var checked := CheckOcclusion(host, scene, 0, corners);
    Constructed(scene, occ, DebugMatrix(bb, checked.corners), checked.occlusion, checked.corners)
  }

  /** None of the three command arguments has any effect on the constructor as built. */
  lemma AsBuiltIgnoresArguments(host: Host, scene: Scene, occ: real, bb: Matrix, corners: Corners,
                                m1: real, i1: Int32, s1: real, m2: real, i2: Int32, s2: real)
    requires 1 <= |scene|
    ensures ConstructAsBuilt(host, scene, m1, i1, s1, occ, bb, corners)
         == ConstructAsBuilt(host, scene, m2, i2, s2, occ, bb, corners)
  {
  }
}
