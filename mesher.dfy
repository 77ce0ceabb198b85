/** The per-axis sweep of the greedy mesher (`mesh`, terrainMesher.js
    593-677): for each axis d it prepares the solidity lookup, then builds the
    mask of every plane it meshes and merges it into quads, appending them to
    one faceDataSet. Which planes it meshes is the pure function AxisPlanes;
    GreedyMesher.Mesh is proved to mesh exactly those, in that order, each
    with the greedy quads of its faces, which cover them exactly and are fixed
    by the chunk (LogUnique). */
module Mesher {
  import opened Common
  import opened Grid
  import opened Views
  import opened Registry
  import opened AO
  import opened FaceData
  import opened Quads
  import opened Mask
  import opened Greedy
  import opened Solidity

  /** What `mesh` reads of a chunk: its side, the voxel data of the 27
      chunks around it in `_neighbors` (slot Centre is the chunk itself,
      None a missing neighbour), `_isEmpty`, `_isFull` and
      `_wholeLayerVoxel`. */
  datatype Chunk = Chunk(size: int, neighbors: seq<Option<seq<int>>>, isEmpty: bool, isFull: bool,
                         wholeLayerVoxel: seq<int>)
  {
    predicate WellFormed()
    {
      0 < size && |neighbors| == 27 && neighbors[Centre].Some?
    }

    /** Every present chunk holds size^3 registered voxel IDs. */
    predicate Valid(reg: Registry)
    {
      && reg.Valid() && WellFormed()
      && (forall s :: 0 <= s < 27 && neighbors[s].Some? ==> |neighbors[s].value| == size * size * size)
      && (forall s, x :: 0 <= s < 27 && neighbors[s].Some? && 0 <= x < |neighbors[s].value| ==>
            reg.IsVoxelId(neighbors[s].value[x]))
    }

    function Voxels(): seq<int>
      requires WellFormed()
    {
      neighbors[Centre].value
    }

    /** No internal faces for an empty or an entirely solid chunk. */
    predicate EdgesOnly()
    {
      isEmpty || isFull
    }
  }

  /** `_wholeLayerVoxel[y]`; a read past the end is `undefined`, which is
      neither >= 0 nor equal to a voxel ID, as -1 is not. */
  function LayerVoxel(wlv: seq<int>, y: int): int
  {
    if 0 <= y < |wlv| then wlv[y] else -1
  }

  /** The y sweep skips the plane between layers i and i + 1 when both hold
      one same whole-layer voxel. */
  predicate YSkip(c: Chunk, d: int, i: int)
  {
    d == 1 && LayerVoxel(c.wholeLayerVoxel, i) >= 0
    && LayerVoxel(c.wholeLayerVoxel, i) == LayerVoxel(c.wholeLayerVoxel, i + 1)
  }

  /** The neighbour before the chunk on the sweep axis:
      `nabVoxelsT.get(-1, 0, 0)`. */
  function PrevChunk(c: Chunk, d: int): Option<seq<int>>
    requires |c.neighbors| == 27
  {
    ChunkAt(c.neighbors, d, -1, 0, 0)
  }

  /** Plane i of the sweep along d: the faces between layer i - 1 and layer
      i, plane 0 lying between the previous neighbour and the chunk. */
  datatype Plane = Plane(d: int, i: int)

  /** The interior planes 1 .. n the sweep along d meshes, in order. */
  function InteriorPlanes(c: Chunk, d: int, n: int): seq<Plane>
    decreases n
  {
    if n <= 0 then []
    else InteriorPlanes(c, d, n - 1) + (if YSkip(c, d, n - 1) then [] else [Plane(d, n)])
  }

  /** The planes the sweep along d meshes, in order: plane 0 when the
      previous neighbour exists, then the interior planes 1 .. size - 1
      unless the chunk is empty or full. */
  function AxisPlanes(c: Chunk, d: int): seq<Plane>
    requires |c.neighbors| == 27
  {
    (if PrevChunk(c, d).Some? then [Plane(d, 0)] else [])
    + (if c.EdgesOnly() then [] else InteriorPlanes(c, d, c.size - 1))
  }

  /** The planes of the sweeps along axes 0 .. d - 1, in order. */
  function SweepPlanes(c: Chunk, d: int): seq<Plane>
    requires |c.neighbors| == 27
    decreases d
  {
    if d <= 0 then [] else SweepPlanes(c, d - 1) + AxisPlanes(c, d - 1)
  }

  lemma {:induction false} InteriorPlaneMembers(c: Chunk, d: int, n: int, pl: Plane)
    ensures pl in InteriorPlanes(c, d, n) <==> pl.d == d && 1 <= pl.i <= n && !YSkip(c, d, pl.i - 1)
    decreases n
  {
    if n > 0 {
      InteriorPlaneMembers(c, d, n - 1, pl);
      var last := if YSkip(c, d, n - 1) then [] else [Plane(d, n)];
      assert InteriorPlanes(c, d, n) == InteriorPlanes(c, d, n - 1) + last;
      assert pl in last <==> pl == Plane(d, n) && !YSkip(c, d, n - 1);
    }
  }

  /** Which planes `mesh` meshes along d: plane 0 exactly when the previous
      neighbour exists; interior plane i exactly when the chunk is neither
      empty nor full and, along y, layers i - 1 and i do not hold one same
      whole-layer voxel; never plane `size`, which the next chunk meshes as
      its own plane 0. */
  lemma MeshedPlanes(c: Chunk, d: int, pl: Plane)
    requires |c.neighbors| == 27 && 0 < c.size
    ensures pl in AxisPlanes(c, d) <==>
      && pl.d == d
      && ((pl.i == 0 && PrevChunk(c, d).Some?)
          || (1 <= pl.i < c.size && !c.EdgesOnly() && !YSkip(c, d, pl.i - 1)))
    ensures Plane(d, c.size) !in AxisPlanes(c, d)
  {
    InteriorPlaneMembers(c, d, c.size - 1, pl);
    InteriorPlaneMembers(c, d, c.size - 1, Plane(d, c.size));
  }

  /** The planes of the sweeps up to axis d: those before it, plane 0 if
      meshed, then the interior planes if meshed. */
  lemma AxisPlanesSplit(c: Chunk, d: int, done: seq<Plane>)
    requires |c.neighbors| == 27 && 0 <= d
    requires done == SweepPlanes(c, d) + if PrevChunk(c, d).Some? then [Plane(d, 0)] else []
    ensures c.EdgesOnly() ==> done == SweepPlanes(c, d + 1)
    ensures !c.EdgesOnly() ==> done + InteriorPlanes(c, d, c.size - 1) == SweepPlanes(c, d + 1)
  {
    var pre: seq<Plane> := if PrevChunk(c, d).Some? then [Plane(d, 0)] else [];
    var inner: seq<Plane> := if c.EdgesOnly() then [] else InteriorPlanes(c, d, c.size - 1);
    assert SweepPlanes(c, d + 1) == SweepPlanes(c, d) + (pre + inner);
    AppendAssoc(SweepPlanes(c, d), pre, inner);
  }

  lemma AppendAssoc<T>(a: seq<T>, b: seq<T>, e: seq<T>)
    ensures a + (b + e) == (a + b) + e
  {
  }

  /** Planes come in increasing order, so none is meshed twice. */
  predicate Increasing(ps: seq<Plane>)
  {
    forall a, b :: 0 <= a < b < |ps| ==> ps[a].i < ps[b].i
  }

  lemma {:induction false} InteriorPlanesIncreasing(c: Chunk, d: int, n: int)
    ensures Increasing(InteriorPlanes(c, d, n))
    ensures forall a :: 0 <= a < |InteriorPlanes(c, d, n)| ==> 1 <= InteriorPlanes(c, d, n)[a].i <= n
    decreases n
  {
    if n > 0 {
      InteriorPlanesIncreasing(c, d, n - 1);
    }
  }

  /** The sweep along d meshes its planes in increasing order along d. */
  lemma AxisPlanesIncreasing(c: Chunk, d: int)
    requires |c.neighbors| == 27
    ensures Increasing(AxisPlanes(c, d))
    ensures forall a :: 0 <= a < |AxisPlanes(c, d)| ==> AxisPlanes(c, d)[a].d == d
  {
    InteriorPlanesIncreasing(c, d, c.size - 1);
    var ps := AxisPlanes(c, d);
    forall a | 0 <= a < |ps|
      ensures ps[a].d == d
    {
      InteriorPlaneMembers(c, d, c.size - 1, ps[a]);
    }
  }

  /** The two layers of plane `pl`, as `mesh` hands them to
      constructMeshMask: plane 0 pairs the previous neighbour, viewed through
      `.lo(cs, 0, 0)` at layer -1, with layer 0 of the chunk; plane i pairs
      layers i - 1 and i of the chunk, with the whole-layer table except
      along y, where the sweep checked it already. */
  function PairOf(c: Chunk, pl: Plane): LayerPair
    requires c.WellFormed()
  {
    var here := VoxView(c.Voxels(), c.size, pl.d, 0);
    if pl.i == 0 then
      var prev := PrevChunk(c, pl.d);
      LayerPair(pl.d, VoxView(if prev.Some? then prev.value else [], c.size, pl.d, c.size), -1, here, 0, None)
    else
      LayerPair(pl.d, here, pl.i - 1, here, pl.i, if pl.d == 1 then None else Some(c.wholeLayerVoxel))
  }

  /** A plane `mesh` may mesh: a layer pair inside the chunk, plane 0 only
      next to a present neighbour. */
  predicate PlaneOk(c: Chunk, pl: Plane)
    requires |c.neighbors| == 27
  {
    IsAxis(pl.d) && 0 <= pl.i < c.size && (pl.i == 0 ==> PrevChunk(c, pl.d).Some?)
  }

  lemma PairValid(reg: Registry, c: Chunk, pl: Plane)
    requires c.Valid(reg) && PlaneOk(c, pl)
    ensures PairOf(c, pl).Valid(reg) && PairOf(c, pl).Len() == c.size
    ensures -1 <= PairOf(c, pl).iA < c.size && 0 <= PairOf(c, pl).iB < c.size
  {
    if pl.i == 0 {
      var o := Untranspose(pl.d, -1, 0, 0);
      SlotIndexRange(o.x, o.y, o.z);
    }
  }

  lemma AxisPlanesOk(c: Chunk, d: int)
    requires c.WellFormed() && IsAxis(d)
    ensures forall a :: 0 <= a < |AxisPlanes(c, d)| ==> PlaneOk(c, AxisPlanes(c, d)[a])
  {
    var ps := AxisPlanes(c, d);
    forall a | 0 <= a < |ps|
      ensures PlaneOk(c, ps[a])
    {
      MeshedPlanes(c, d, ps[a]);
    }
  }

  /** `_wholeLayerVoxel[y]`, when not negative, is the voxel that fills
      layer y of the chunk. */
  ghost predicate LayerHintsHold(c: Chunk)
    requires c.WellFormed() && |c.Voxels()| == c.size * c.size * c.size
  {
    forall x, y, z :: 0 <= y < |c.wholeLayerVoxel| && c.wholeLayerVoxel[y] >= 0 && InChunk(c.size, x, y, z) ==>
      Voxel(c.Voxels(), c.size, x, y, z) == c.wholeLayerVoxel[y]
  }

  /** Skipping a y plane loses no face: when the hints hold, every cell of a
      skipped plane lies between two equal voxels. */
  lemma YSkipSound(reg: Registry, c: Chunk, i: int, j: int, k: int)
    requires c.Valid(reg) && LayerHintsHold(c)
    requires 0 <= i < c.size - 1 && YSkip(c, 1, i) && 0 <= j < c.size && 0 <= k < c.size
    ensures PairOf(c, Plane(1, i + 1)).Valid(reg)
    ensures PairOf(c, Plane(1, i + 1)).CellFace(reg, j, k) == NoFace
  {
    var p := PairOf(c, Plane(1, i + 1));
    PairValid(reg, c, Plane(1, i + 1));
    assert Untranspose(1, i, j, k) == Vec3(k, i, j);
    assert Untranspose(1, i + 1, j, k) == Vec3(k, i + 1, j);
    assert p.IdA(reg, j, k) == c.wholeLayerVoxel[i];
    assert p.IdB(reg, j, k) == c.wholeLayerVoxel[i + 1];
  }

  /** Along x and z, constructMeshMask's own row skip loses no face either:
      when the hints hold, the mask of an interior plane is the one it would
      get without the whole-layer table. */
  lemma RowSkipSound(reg: Registry, c: Chunk, pl: Plane, j: int, k: int)
    requires c.Valid(reg) && LayerHintsHold(c) && PlaneOk(c, pl) && pl.i > 0
    requires 0 <= j < c.size && 0 <= k < c.size
    ensures PairOf(c, pl).Valid(reg)
    ensures PairOf(c, pl).CellFace(reg, j, k) == PairOf(c, pl).(wholeLayerVoxel := None).CellFace(reg, j, k)
  {
    var p := PairOf(c, pl);
    PairValid(reg, c, pl);
    if p.Skipped(k) {
      UntransposeIsPlace(pl.d, pl.i - 1, j, k);
      UntransposeIsPlace(pl.d, pl.i, j, k);
      SkipChangesNothing(reg, p, j, k);
    }
  }

  /** Solidity of the neighbourhood as the prepared lookup answers it on
      [-1, size]^3 (a missing neighbour read as the centre chunk at the
      clamped coordinate); false elsewhere. */
  function NeighbourhoodSolid(reg: Registry, c: Chunk, d: int): (int, int, int) -> bool
    requires c.WellFormed()
  {
    (i, j, k) =>
      -1 <= i <= c.size && -1 <= j <= c.size && -1 <= k <= c.size
      && IdSolid(reg.solidity, NeighbourhoodVoxel(c.neighbors, c.size, d, i, j, k))
  }

  /** Two solidity functions that agree on [-1, size]^3. */
  ghost predicate AgreeAround(f: (int, int, int) -> bool, g: (int, int, int) -> bool, size: int)
  {
    forall a, b, e :: -1 <= a <= size && -1 <= b <= size && -1 <= e <= size ==> f(a, b, e) == g(a, b, e)
  }

  /** The prepared tables answer what the neighbourhood holds. */
  lemma TablesAgree(reg: Registry, c: Chunk, d: int, t: Tables)
    requires c.WellFormed() && Prepared(t, c.neighbors, c.size, d) && t.solidity == reg.solidity
    ensures AgreeAround((a, b, e) => t.IsSolid(a, b, e), NeighbourhoodSolid(reg, c, d), c.size)
  {
    forall a, b, e | -1 <= a <= c.size && -1 <= b <= c.size && -1 <= e <= c.size
      ensures t.IsSolid(a, b, e) == NeighbourhoodSolid(reg, c, d)(a, b, e)
    {
      IsSolidReadsNeighbourhood(t, c.neighbors, c.size, d, a, b, e);
    }
  }

  /** packAOMask reads only the 3x3 cells around (j, k) in layers ipos and
      ineg. */
  lemma PackAOLocal(f: (int, int, int) -> bool, g: (int, int, int) -> bool, size: int,
                    ipos: int, ineg: int, j: int, k: int, skipReverse: bool)
    requires AgreeAround(f, g, size)
    requires -1 <= ipos <= size && -1 <= ineg <= size && 0 <= j < size && 0 <= k < size
    ensures PackAOMask(f, ipos, ineg, j, k, skipReverse) == PackAOMask(g, ipos, ineg, j, k, skipReverse)
  {
    CornerLocal(f, g, size, ipos, ineg, j, k, -1, -1, skipReverse);
    CornerLocal(f, g, size, ipos, ineg, j, k, -1, 1, skipReverse);
    CornerLocal(f, g, size, ipos, ineg, j, k, 1, 1, skipReverse);
    CornerLocal(f, g, size, ipos, ineg, j, k, 1, -1, skipReverse);
    assert AOLevels(f, ipos, ineg, j, k, skipReverse) == AOLevels(g, ipos, ineg, j, k, skipReverse);
  }

  lemma CornerLocal(f: (int, int, int) -> bool, g: (int, int, int) -> bool, size: int,
                    ipos: int, ineg: int, j: int, k: int, sj: int, sk: int, skipReverse: bool)
    requires AgreeAround(f, g, size)
    requires -1 <= ipos <= size && -1 <= ineg <= size && 0 <= j < size && 0 <= k < size
    requires (sj == 1 || sj == -1) && (sk == 1 || sk == -1)
    ensures CornerLevel(f, ipos, ineg, j, k, sj, sk, skipReverse) == CornerLevel(g, ipos, ineg, j, k, sj, sk, skipReverse)
  {
    assert f(ipos, j, k) == g(ipos, j, k);
    assert f(ipos, j + sj, k) == g(ipos, j + sj, k);
    assert f(ipos, j, k + sk) == g(ipos, j, k + sk);
    assert f(ipos, j + sj, k + sk) == g(ipos, j + sj, k + sk);
    assert f(ineg, j, k + sk) == g(ineg, j, k + sk);
    assert f(ineg, j + sj, k) == g(ineg, j + sj, k);
    assert f(ineg, j + sj, k + sk) == g(ineg, j + sj, k + sk);
  }

  /** The AO `mesh` stores for the face at cell (j, k), computed from the
      neighbourhood. */
  ghost function FaceAO(reg: Registry, c: Chunk, pl: Plane, skipRevAo: bool, j: int, k: int): int
    requires c.Valid(reg) && PlaneOk(c, pl) && 0 <= j < c.size && 0 <= k < c.size
  {
    PairValid(reg, c, pl);
    var p := PairOf(c, pl);
    p.CellAO(NeighbourhoodSolid(reg, c, pl.d), skipRevAo, j, k, p.CellFace(reg, j, k))
  }

  /** The quads of plane `pl` cover its face cells exactly: each quad lies
      in the plane, quads do not overlap, every cell of a quad has the
      quad's mask value and, with AO, its packed AO, and the cells painted by
      the quads are exactly the face cells, each with its face's value. */
  ghost predicate PlaneCover(reg: Registry, c: Chunk, pl: Plane, doAO: bool, skipRevAo: bool, rects: seq<Rect>)
    requires c.Valid(reg) && PlaneOk(c, pl)
  {
    && (forall n :: 0 <= n < |rects| ==> RectOk(rects[n], c.size, c.size))
    && Disjoint(rects)
    && CoverCells(reg, c, pl, doAO, skipRevAo, rects)
    && CoverRaster(reg, c, pl, rects)
    // without AO the AO mask stays zero, so every quad records packed AO 0
    && (!doAO ==> forall n :: 0 <= n < |rects| ==> rects[n].ao == 0)
  }

  ghost predicate CoverCells(reg: Registry, c: Chunk, pl: Plane, doAO: bool, skipRevAo: bool, rects: seq<Rect>)
    requires c.Valid(reg) && PlaneOk(c, pl)
  {
    forall n, j, k :: 0 <= n < |rects| && 0 <= j < c.size && 0 <= k < c.size && InRect(rects[n], j, k) ==>
      CellCovered(reg, c, pl, doAO, skipRevAo, rects[n], j, k)
  }

  ghost predicate CoverRaster(reg: Registry, c: Chunk, pl: Plane, rects: seq<Rect>)
    requires c.Valid(reg) && PlaneOk(c, pl)
  {
    PairValid(reg, c, pl);
    forall j, k :: 0 <= j < c.size && 0 <= k < c.size ==>
      RasterAt(rects, j, k) == MaskValue(PairOf(c, pl).CellFace(reg, j, k))
  }

  /** Cell (j, k) of quad r has the quad's mask value and, with AO, its
      packed AO. */
  ghost predicate CellCovered(reg: Registry, c: Chunk, pl: Plane, doAO: bool, skipRevAo: bool, r: Rect, j: int, k: int)
    requires c.Valid(reg) && PlaneOk(c, pl) && 0 <= j < c.size && 0 <= k < c.size
  {
    PairValid(reg, c, pl);
    && MaskValue(PairOf(c, pl).CellFace(reg, j, k)) == r.val
    && (doAO ==> FaceAO(reg, c, pl, skipRevAo, j, k) == r.ao)
  }

  /** The face of cell (j, k) of plane `pl`. */
  ghost function PlaneFace(reg: Registry, c: Chunk, pl: Plane, j: int, k: int): Choice
    requires c.Valid(reg) && PlaneOk(c, pl) && 0 <= j < c.size && 0 <= k < c.size
  {
    PairValid(reg, c, pl);
    PairOf(c, pl).CellFace(reg, j, k)
  }

  /** M and A are a mask and an AO mask of plane `pl`'s faces: every cell
      holds its face's signed material, with AO every face cell its packed
      AO from the neighbourhood, and without AO the AO mask is 0. */
  ghost predicate FacesOf(reg: Registry, c: Chunk, pl: Plane, doAO: bool, skipRevAo: bool, M: seq<int>, A: seq<int>)
    requires c.Valid(reg) && PlaneOk(c, pl)
  {
    forall j, k :: 0 <= j < c.size && 0 <= k < c.size ==>
      && At(M, c.size, j, k) == MaskValue(PlaneFace(reg, c, pl, j, k))
      && (doAO && PlaneFace(reg, c, pl, j, k) != NoFace ==> At(A, c.size, j, k) == FaceAO(reg, c, pl, skipRevAo, j, k))
      && (!doAO ==> At(A, c.size, j, k) == 0)
  }

  /** The quads of plane `pl` are the greedy ones of its faces, in scan
      order: each starts at the first face cell the earlier quads leave, is
      as wide as it can be, then as tall across that width. */
  ghost predicate PlaneGreedy(reg: Registry, c: Chunk, pl: Plane, doAO: bool, skipRevAo: bool, rects: seq<Rect>,
                              M: seq<int>, A: seq<int>)
    requires c.Valid(reg) && PlaneOk(c, pl)
  {
    && FacesOf(reg, c, pl, doAO, skipRevAo, M, A)
    && Quads.Greedy(M, A, c.size, c.size, doAO, rects)
    && InScanOrder(rects)
  }

  /** One meshed plane, the quads its mask merged into, and the mask and AO
      mask they were merged from. */
  datatype PlaneRun = PlaneRun(plane: Plane, rects: seq<Rect>, mask: seq<int>, ao: seq<int>)

  function Planes(log: seq<PlaneRun>): seq<Plane>
  {
    if log == [] then [] else Planes(log[..|log| - 1]) + [log[|log| - 1].plane]
  }

  /** A logged plane is one `mesh` may mesh, covered exactly by its greedy
      quads in scan order, all of whose materials have a terrain group. */
  ghost predicate Covered(reg: Registry, c: Chunk, doAO: bool, skipRevAo: bool, run: PlaneRun)
    requires c.Valid(reg)
  {
    PlaneOk(c, run.plane)
    && PlaneCover(reg, c, run.plane, doAO, skipRevAo, run.rects)
    && PlaneGreedy(reg, c, run.plane, doAO, skipRevAo, run.rects, run.mask, run.ao)
    && HasTerrain(run.rects, reg.matToTerrain)
  }

  /** The faceDataSet after appending the quads of every logged plane, in
      order, each with the sweep axes of its plane. */
  function AddPlanes(view: map<int, seq<Face>>, log: seq<PlaneRun>, matToTerrain: seq<int>): map<int, seq<Face>>
    requires forall n :: 0 <= n < |log| ==> HasTerrain(log[n].rects, matToTerrain)
  {
    if log == [] then view
    else
      var run := log[|log| - 1];
      AddRects(AddPlanes(view, log[..|log| - 1], matToTerrain), run.plane.d, UAxis(run.plane.d), VAxis(run.plane.d),
               run.plane.i, run.rects, matToTerrain)
  }

  /** The state of the sweep: the log lists `planes`, each covered, and the
      faceDataSet holds their quads. */
  ghost predicate Swept(reg: Registry, c: Chunk, doAO: bool, skipRevAo: bool, log: seq<PlaneRun>,
                        fds: map<int, MeshedFaceData>, planes: seq<Plane>)
    requires c.Valid(reg)
  {
    && Planes(log) == planes
    && (forall n :: 0 <= n < |log| ==> Covered(reg, c, doAO, skipRevAo, log[n]))
    && ValidSet(fds)
    && View(fds) == AddPlanes(map[], log, reg.matToTerrain)
  }

  /** Logging one more plane. */
  lemma SweptStep(reg: Registry, c: Chunk, doAO: bool, skipRevAo: bool, log: seq<PlaneRun>,
                  fds: map<int, MeshedFaceData>, planes: seq<Plane>, run: PlaneRun, fds': map<int, MeshedFaceData>)
    requires c.Valid(reg) && Swept(reg, c, doAO, skipRevAo, log, fds, planes)
    requires Covered(reg, c, doAO, skipRevAo, run)
    requires Recorded(fds', View(fds), run.plane.d, UAxis(run.plane.d), VAxis(run.plane.d), run.plane.i,
                      run.rects, reg.matToTerrain)
    ensures Swept(reg, c, doAO, skipRevAo, log + [run], fds', planes + [run.plane])
  {
    var log' := log + [run];
    assert log'[..|log|] == log;
  }

  /** What a finished sweep states, clause by clause. */
  lemma SweptFacts(reg: Registry, c: Chunk, doAO: bool, skipRevAo: bool, log: seq<PlaneRun>,
                   fds: map<int, MeshedFaceData>, planes: seq<Plane>)
    requires c.Valid(reg) && Swept(reg, c, doAO, skipRevAo, log, fds, planes)
    ensures Planes(log) == planes
    ensures forall n :: 0 <= n < |log| ==> Covered(reg, c, doAO, skipRevAo, log[n])
    ensures forall n :: 0 <= n < |log| ==> HasTerrain(log[n].rects, reg.matToTerrain)
    ensures ValidSet(fds) && View(fds) == AddPlanes(map[], log, reg.matToTerrain)
  {
  }

  /** The mask caches, the solidity lookup and the options of a GreedyMesher
      (terrainMesher.js 303-331). */
  class GreedyMesher {
    const reg: Registry
    const doAO: bool
    const skipRevAo: bool
    var maskCache: array<int>
    var aoMaskCache: array<int>
    const lookup: SolidityLookup

    /** The mask cache is all zero between calls: every mask cell
        constructMeshMask writes is zeroed again by
        constructGeometryFromMasks. Without AO the AO mask cache is never
        written, so it stays as allocated, all zero. */
    ghost predicate Valid()
      reads this, maskCache, aoMaskCache, lookup
    {
      && reg.Valid() && maskCache != aoMaskCache && maskCache.Length == aoMaskCache.Length
      && (forall n :: 0 <= n < maskCache.Length ==> maskCache[n] == 0)
      && (!doAO ==> forall n :: 0 <= n < aoMaskCache.Length ==> aoMaskCache[n] == 0)
      && lookup.Valid() && lookup.solidLookupArr == reg.solidity
    }

    constructor (registry: Registry, ao: bool, skipReverseAO: bool)
      requires registry.Valid()
      ensures Valid() && reg == registry && doAO == ao && skipRevAo == skipReverseAO
      ensures fresh(lookup) && lookup.initSize == -1
    {
      reg := registry;
      doAO := ao;
      skipRevAo := skipReverseAO;
      maskCache := new int[16](_ => 0);
      aoMaskCache := new int[16](_ => 0);
      lookup := new SolidityLookup(registry.solidity);
    }

    /** `mesh`: the faceDataSet, keyed by terrain ID, of the quads of every
        plane AxisPlanes names, axis after axis, each plane covered exactly
        by its quads. */
    method Mesh(c: Chunk, pool: FaceDataPool) returns (faceDataSet: map<int, MeshedFaceData>, ghost log: seq<PlaneRun>)
      requires Valid() && c.Valid(reg) && pool.Valid()
      modifies this, maskCache, aoMaskCache, lookup, pool
      ensures Valid() && pool.Valid()
      ensures Planes(log) == SweepPlanes(c, 3)
      ensures forall n :: 0 <= n < |log| ==> Covered(reg, c, doAO, skipRevAo, log[n])
      ensures forall n :: 0 <= n < |log| ==> HasTerrain(log[n].rects, reg.matToTerrain)
      ensures ValidSet(faceDataSet) && View(faceDataSet) == AddPlanes(map[], log, reg.matToTerrain)
    {
      var edgesOnly := c.isEmpty || c.isFull;
      faceDataSet := map[];
      pool.Reset();
      log := [];
      var d := 0;
      while d < 3
        invariant 0 <= d <= 3
        invariant Valid() && pool.Valid()
        invariant fresh(maskCache) || maskCache == old(maskCache)
        invariant fresh(aoMaskCache) || aoMaskCache == old(aoMaskCache)
        invariant Swept(reg, c, doAO, skipRevAo, log, faceDataSet, SweepPlanes(c, d)) == true
      {
        faceDataSet, log := AxisPass(c, d, edgesOnly, pool, faceDataSet, log);
        d := d + 1;
      }
      SweptFacts(reg, c, doAO, skipRevAo, log, faceDataSet, SweepPlanes(c, 3));
    }

    /** One pass of the loop over d: grow the mask cache to the plane's
        size, then sweep. */
    method AxisPass(c: Chunk, d: int, edgesOnly: bool, pool: FaceDataPool,
                    fds: map<int, MeshedFaceData>, ghost log: seq<PlaneRun>)
      returns (fds': map<int, MeshedFaceData>, ghost log': seq<PlaneRun>)
      requires Valid() && c.Valid(reg) && pool.Valid() && IsAxis(d) && edgesOnly == c.EdgesOnly()
      requires Swept(reg, c, doAO, skipRevAo, log, fds, SweepPlanes(c, d))
      modifies this, maskCache, aoMaskCache, lookup, pool
      ensures Valid() && pool.Valid()
      ensures fresh(maskCache) || maskCache == old(maskCache)
      ensures fresh(aoMaskCache) || aoMaskCache == old(aoMaskCache)
      ensures Swept(reg, c, doAO, skipRevAo, log', fds', SweepPlanes(c, d + 1))
    {
      GrowMasks(c.size * c.size);
      fds', log' := SweepAxis(c, d, edgesOnly, pool, fds, log);
    }

    /** The sweep along d, into mask arrays large enough for its planes. */
    method SweepAxis(c: Chunk, d: int, edgesOnly: bool, pool: FaceDataPool,
                     fds: map<int, MeshedFaceData>, ghost log: seq<PlaneRun>)
      returns (fds': map<int, MeshedFaceData>, ghost log': seq<PlaneRun>)
      requires Valid() && c.Valid(reg) && pool.Valid() && IsAxis(d) && edgesOnly == c.EdgesOnly()
      requires c.size * c.size <= maskCache.Length
      requires Swept(reg, c, doAO, skipRevAo, log, fds, SweepPlanes(c, d))
      modifies maskCache, aoMaskCache, lookup, pool
      ensures Valid() && pool.Valid()
      ensures Swept(reg, c, doAO, skipRevAo, log', fds', SweepPlanes(c, d + 1))
    {
      var u := if d == 2 then 0 else 2;
      var v := if d == 1 then 0 else 1;
      var isSolid := PrepareLookup(c, d);
      fds', log' := fds, log;
      var prev := ChunkAt(c.neighbors, d, -1, 0, 0);
      if prev.Some? {
        fds', log' := MeshPlane(c, Plane(d, 0), u, v, isSolid, pool, fds', log', SweepPlanes(c, d));
      }
      ghost var done := SweepPlanes(c, d) + if prev.Some? then [Plane(d, 0)] else [];
      AxisPlanesSplit(c, d, done);
      if !edgesOnly {
        fds', log' := MeshInterior(c, d, u, v, isSolid, pool, fds', log', done);
      }
    }

    /** prepareSolidityLookup for the sweep along d; `voxelIsSolid` then
        answers what the neighbourhood holds. */
    method PrepareLookup(c: Chunk, d: int) returns (isSolid: (int, int, int) -> bool)
      requires Valid() && c.Valid(reg) && IsAxis(d)
      modifies lookup
      ensures Valid()
      ensures AgreeAround(isSolid, NeighbourhoodSolid(reg, c, d), c.size)
    {
      lookup.PrepareSolidityLookup(c.neighbors, d, c.size);
      var t := lookup.Snapshot();
      isSolid := (a: int, b: int, e: int) => t.IsSolid(a, b, e);
      TablesAgree(reg, c, d, t);
    }

    /** Embiggen the cached mask arrays if needed: fresh zeroed arrays of n
        cells when they are shorter. */
    method GrowMasks(n: int)
      requires Valid() && 0 <= n
      modifies this
      ensures Valid() && n <= maskCache.Length
      ensures maskCache.Length < n ==> fresh(maskCache) && fresh(aoMaskCache)
      ensures old(maskCache.Length) >= n ==> maskCache == old(maskCache) && aoMaskCache == old(aoMaskCache)
      ensures old(maskCache.Length) < n ==> fresh(maskCache) && fresh(aoMaskCache)
    {
      if maskCache.Length < n {
        maskCache := new int[n](_ => 0);
        aoMaskCache := new int[n](_ => 0);
      }
    }

    /** The loop over the interior planes 1 .. cs - 1 of the sweep along d,
        skipping along y the planes between two layers of one same
        whole-layer voxel. */
    method MeshInterior(c: Chunk, d: int, u: int, v: int, isSolid: (int, int, int) -> bool, pool: FaceDataPool,
                        fds: map<int, MeshedFaceData>, ghost log: seq<PlaneRun>, ghost done: seq<Plane>)
      returns (fds': map<int, MeshedFaceData>, ghost log': seq<PlaneRun>)
      requires Valid() && c.Valid(reg) && pool.Valid() && IsAxis(d) && c.size * c.size <= maskCache.Length
      requires u == UAxis(d) && v == VAxis(d)
      requires AgreeAround(isSolid, NeighbourhoodSolid(reg, c, d), c.size)
      requires Swept(reg, c, doAO, skipRevAo, log, fds, done)
      modifies maskCache, aoMaskCache, pool
      ensures Valid() && pool.Valid()
      ensures Swept(reg, c, doAO, skipRevAo, log', fds', done + InteriorPlanes(c, d, c.size - 1))
    {
      fds', log' := fds, log;
      var i := 0;
      assert done + InteriorPlanes(c, d, 0) == done;
      while i < c.size - 1
        invariant 0 <= i <= c.size - 1
        invariant Valid() && pool.Valid()
        // compared with true so that the invariant is checked as one fact
        invariant Swept(reg, c, doAO, skipRevAo, log', fds', done + InteriorPlanes(c, d, i)) == true
      {
        fds', log' := InteriorPlane(c, d, i, u, v, isSolid, pool, fds', log', done);
        i := i + 1;
      }
    }

    /** One pass of the loop over i: the plane between layers i and i + 1,
        unless the y-skip drops it. */
    method InteriorPlane(c: Chunk, d: int, i: int, u: int, v: int, isSolid: (int, int, int) -> bool,
                         pool: FaceDataPool, fds: map<int, MeshedFaceData>, ghost log: seq<PlaneRun>,
                         ghost done: seq<Plane>)
      returns (fds': map<int, MeshedFaceData>, ghost log': seq<PlaneRun>)
      requires Valid() && c.Valid(reg) && pool.Valid() && IsAxis(d) && c.size * c.size <= maskCache.Length
      requires u == UAxis(d) && v == VAxis(d) && 0 <= i < c.size - 1
      requires AgreeAround(isSolid, NeighbourhoodSolid(reg, c, d), c.size)
      requires Swept(reg, c, doAO, skipRevAo, log, fds, done + InteriorPlanes(c, d, i))
      modifies maskCache, aoMaskCache, pool
      ensures Valid() && pool.Valid()
      ensures Swept(reg, c, doAO, skipRevAo, log', fds', done + InteriorPlanes(c, d, i + 1))
    {
      InteriorStep(c, d, done, i);
      if d == 1 {
        var v1 := LayerVoxel(c.wholeLayerVoxel, i);
        if v1 >= 0 && v1 == LayerVoxel(c.wholeLayerVoxel, i + 1) {
          return fds, log;
        }
      }
      fds', log' := MeshPlane(c, Plane(d, i + 1), u, v, isSolid, pool, fds, log, done + InteriorPlanes(c, d, i));
    }

    /** One plane: constructMeshMask, then, when it found faces,
        constructGeometryFromMasks (terrainMesher.js 636-642, 664-667). */
    method MeshPlane(c: Chunk, pl: Plane, u: int, v: int, isSolid: (int, int, int) -> bool, pool: FaceDataPool,
                     fds: map<int, MeshedFaceData>, ghost log: seq<PlaneRun>, ghost planes: seq<Plane>)
      returns (fds': map<int, MeshedFaceData>, ghost log': seq<PlaneRun>)
      requires Valid() && c.Valid(reg) && pool.Valid() && PlaneOk(c, pl)
      requires u == UAxis(pl.d) && v == VAxis(pl.d) && c.size * c.size <= maskCache.Length
      requires AgreeAround(isSolid, NeighbourhoodSolid(reg, c, pl.d), c.size)
      requires Swept(reg, c, doAO, skipRevAo, log, fds, planes)
      modifies maskCache, aoMaskCache, pool
      ensures Valid() && pool.Valid()
      ensures Swept(reg, c, doAO, skipRevAo, log', fds', planes + [pl])
    {
      var nf := PlaneMask(reg, c, pl, maskCache, aoMaskCache, doAO, isSolid, skipRevAo);
      ghost var rects, M, A := [], maskCache[..], aoMaskCache[..];
      fds', rects := PlaneQuads(reg, c, pl, u, v, nf, fds, maskCache, aoMaskCache, doAO, isSolid, skipRevAo, pool);
      SweptStep(reg, c, doAO, skipRevAo, log, fds, planes, PlaneRun(pl, rects, M, A), fds');
      log' := log + [PlaneRun(pl, rects, M, A)];
    }
  }

  /** Plane i + 1 extends the planes meshed so far unless the y-skip drops
      it. */
  lemma InteriorStep(c: Chunk, d: int, done: seq<Plane>, i: int)
    requires 0 <= i
    ensures YSkip(c, d, i) ==> done + InteriorPlanes(c, d, i + 1) == done + InteriorPlanes(c, d, i)
    ensures !YSkip(c, d, i) ==>
      done + InteriorPlanes(c, d, i + 1) == (done + InteriorPlanes(c, d, i)) + [Plane(d, i + 1)]
  {
    AppendAssoc(done, InteriorPlanes(c, d, i), [Plane(d, i + 1)]);
  }

  /** The mask and AO mask constructMeshMask leaves for plane `pl`: each
      cell holds the plane's face, each face cell (with AO) its packed AO,
      and `nf` is at least the number of faces. */
  ghost predicate MaskOf(reg: Registry, c: Chunk, pl: Plane, doAO: bool, isSolid: (int, int, int) -> bool,
                         skipRevAo: bool, M: seq<int>, A: seq<int>, nf: int)
    requires c.Valid(reg) && PlaneOk(c, pl)
  {
    PairValid(reg, c, pl);
    var p, len := PairOf(c, pl), c.size;
    && len * len <= |M| && len * len <= |A|
    && Count(M[..len * len]) <= nf
    && (forall j, k :: 0 <= j < len && 0 <= k < len ==> At(M, len, j, k) == MaskValue(p.CellFace(reg, j, k)))
    && (forall j, k :: 0 <= j < len && 0 <= k < len && doAO && p.CellFace(reg, j, k) != NoFace ==>
          At(A, len, j, k) == p.CellAO(isSolid, skipRevAo, j, k, p.CellFace(reg, j, k)))
  }

  /** constructMeshMask on the layers of plane `pl`, into the zeroed mask
      cache. */
  method PlaneMask(reg: Registry, c: Chunk, pl: Plane, mask: array<int>, aoMask: array<int>, doAO: bool,
                   isSolid: (int, int, int) -> bool, skipRevAo: bool)
    returns (nf: int)
    requires c.Valid(reg) && PlaneOk(c, pl) && mask != aoMask
    requires c.size * c.size <= mask.Length && c.size * c.size <= aoMask.Length
    requires forall n :: 0 <= n < mask.Length ==> mask[n] == 0
    requires !doAO ==> forall n :: 0 <= n < aoMask.Length ==> aoMask[n] == 0
    modifies mask, aoMask
    ensures MaskOf(reg, c, pl, doAO, isSolid, skipRevAo, mask[..], aoMask[..], nf)
    ensures forall n :: c.size * c.size <= n < mask.Length ==> mask[n] == 0
    ensures !doAO ==> forall n :: 0 <= n < aoMask.Length ==> aoMask[n] == 0
  {
    PairValid(reg, c, pl);
    var p := PairOf(c, pl);
    ghost var L := p.Len() * p.Len();
    ghost var tail := mask[L..];
    ghost var A0 := aoMask[..];
    assert forall n :: 0 <= n < |tail| ==> tail[n] == mask[L + n];
    nf := ConstructMeshMask(reg, p, mask, aoMask, doAO, isSolid, skipRevAo);
    TailZero(mask[..], L, tail);
    if !doAO {
      AOKept(A0, aoMask[..], p.Len());
    }
  }

  /** An AO mask that was all zero and whose cells and tail were all kept is
      still all zero. */
  lemma AOKept(A0: seq<int>, A: seq<int>, len: int)
    requires 0 < len && len * len <= |A0| == |A|
    requires forall n :: 0 <= n < |A0| ==> A0[n] == 0
    requires forall j, k :: 0 <= j < len && 0 <= k < len ==> At(A, len, j, k) == At(A0, len, j, k)
    requires A[len * len..] == A0[len * len..]
    ensures forall n :: 0 <= n < |A| ==> A[n] == 0
  {
    RowStartMul(len, len);
    forall n | 0 <= n < |A|
      ensures A[n] == 0
    {
      if n < len * len {
        CellOfBelow(len, len, n);
        assert A[n] == At(A, len, n % len, n / len);
      } else {
        assert A[n] == A[len * len..][n - len * len];
      }
    }
  }

  lemma TailZero(M: seq<int>, L: int, tail: seq<int>)
    requires 0 <= L <= |M| && M[L..] == tail
    requires forall n :: 0 <= n < |tail| ==> tail[n] == 0
    ensures forall n :: L <= n < |M| ==> M[n] == 0
  {
    assert forall n :: L <= n < |M| ==> M[n] == M[L..][n - L];
  }

  /** The quads of plane `pl`: constructGeometryFromMasks when the mask
      holds faces, none otherwise; either way the mask ends all zero. */
  method PlaneQuads(reg: Registry, c: Chunk, pl: Plane, u: int, v: int, nf: int, fds: map<int, MeshedFaceData>,
                    mask: array<int>, aoMask: array<int>, doAO: bool, isSolid: (int, int, int) -> bool,
                    skipRevAo: bool, pool: FaceDataPool)
    returns (fds': map<int, MeshedFaceData>, ghost rects: seq<Rect>)
    requires c.Valid(reg) && PlaneOk(c, pl) && mask != aoMask && pool.Valid() && ValidSet(fds)
    requires u == UAxis(pl.d) && v == VAxis(pl.d)
    requires AgreeAround(isSolid, NeighbourhoodSolid(reg, c, pl.d), c.size)
    requires MaskOf(reg, c, pl, doAO, isSolid, skipRevAo, mask[..], aoMask[..], nf)
    requires forall n :: c.size * c.size <= n < mask.Length ==> mask[n] == 0
    requires !doAO ==> forall n :: 0 <= n < aoMask.Length ==> aoMask[n] == 0
    modifies mask, pool
    ensures pool.Valid() && forall n :: 0 <= n < mask.Length ==> mask[n] == 0
    ensures Covered(reg, c, doAO, skipRevAo, PlaneRun(pl, rects, old(mask[..]), old(aoMask[..])))
    ensures Recorded(fds', View(fds), pl.d, u, v, pl.i, rects, reg.matToTerrain)
  {
    ghost var M, A := mask[..], aoMask[..];
    ghost var L := c.size * c.size;
    MaskFaces(reg, c, pl, doAO, skipRevAo, isSolid, M, A, nf);
    if nf > 0 {
      MaskMaterials(reg, c, pl, doAO, isSolid, skipRevAo, M, A, nf);
      SweepAxesArePermutation(pl.d);
      fds', rects := ConstructGeometryFromMasks(pl.i, pl.d, u, v, c.size, c.size, nf, fds, mask, aoMask,
                                                doAO, reg.matToTerrain, pool);
      CoverMeaning(reg, c, pl, doAO, skipRevAo, isSolid, M, A, nf, rects);
    } else {
      fds', rects := fds, [];
      NoFaces(reg, c, pl, doAO, skipRevAo, isSolid, M, A, nf);
    }
  }

  /** Every mask value is a signed material with a terrain group. */
  lemma MaskMaterials(reg: Registry, c: Chunk, pl: Plane, doAO: bool, isSolid: (int, int, int) -> bool,
                      skipRevAo: bool, M: seq<int>, A: seq<int>, nf: int)
    requires c.Valid(reg) && PlaneOk(c, pl)
    requires MaskOf(reg, c, pl, doAO, isSolid, skipRevAo, M, A, nf)
    ensures forall n :: 0 <= n < c.size * c.size ==> Abs(M[n]) < |reg.matToTerrain|
  {
    PairValid(reg, c, pl);
    var p := PairOf(c, pl);
    RowStartMul(c.size, c.size);
    forall n | 0 <= n < c.size * c.size
      ensures Abs(M[n]) < |reg.matToTerrain|
    {
      CellOfBelow(c.size, c.size, n);
      var j, k := n % c.size, n / c.size;
      assert M[n] == At(M, c.size, j, k);
      var ida, idb := p.IdA(reg, j, k), p.IdB(reg, j, k);
      assert reg.IsMaterial(reg.MatIdGetter(ida, 2 * pl.d)) && reg.IsMaterial(reg.MatIdGetter(idb, 2 * pl.d + 1));
    }
  }

  /** A plane where constructMeshMask found no face: its mask is all zero,
      and no quads cover it exactly. */
  lemma NoFaces(reg: Registry, c: Chunk, pl: Plane, doAO: bool, skipRevAo: bool, isSolid: (int, int, int) -> bool,
                M: seq<int>, A: seq<int>, nf: int)
    requires c.Valid(reg) && PlaneOk(c, pl) && nf <= 0
    requires MaskOf(reg, c, pl, doAO, isSolid, skipRevAo, M, A, nf)
    ensures forall n :: 0 <= n < c.size * c.size ==> M[n] == 0
    ensures FacesOf(reg, c, pl, doAO, skipRevAo, M, A) ==> Covered(reg, c, doAO, skipRevAo, PlaneRun(pl, [], M, A))
  {
    PairValid(reg, c, pl);
    RowStartMul(c.size, c.size);
    AllZero(M, c.size * c.size, c.size, c.size);
    assert PlaneCover(reg, c, pl, doAO, skipRevAo, []);
  }

  /** The exact cover constructGeometryFromMasks proves of the mask and AO
      mask constructMeshMask built is an exact cover of the plane's faces. */
  lemma CoverMeaning(reg: Registry, c: Chunk, pl: Plane, doAO: bool, skipRevAo: bool,
                     isSolid: (int, int, int) -> bool, M: seq<int>, A: seq<int>, nf: int, rects: seq<Rect>)
    requires c.Valid(reg) && PlaneOk(c, pl)
    requires MaskOf(reg, c, pl, doAO, isSolid, skipRevAo, M, A, nf)
    requires ExactCover(M, A, c.size, c.size, doAO, rects)
    requires AgreeAround(isSolid, NeighbourhoodSolid(reg, c, pl.d), c.size)
    requires !doAO ==> forall n :: 0 <= n < |A| ==> A[n] == 0
    ensures PlaneCover(reg, c, pl, doAO, skipRevAo, rects)
  {
    assert forall n :: 0 <= n < |rects| ==> At(A, c.size, rects[n].j, rects[n].k) == rects[n].ao;
    assert MaskContext(reg, c, pl, doAO, skipRevAo, isSolid, M, A, nf);
    CoverCellsMeaning(reg, c, pl, doAO, skipRevAo, isSolid, M, A, nf, rects);
    CoverRasterMeaning(reg, c, pl, doAO, skipRevAo, isSolid, M, A, nf, rects);
  }

  lemma CoverCellsMeaning(reg: Registry, c: Chunk, pl: Plane, doAO: bool, skipRevAo: bool,
                          isSolid: (int, int, int) -> bool, M: seq<int>, A: seq<int>, nf: int, rects: seq<Rect>)
    requires MaskContext(reg, c, pl, doAO, skipRevAo, isSolid, M, A, nf)
    requires ExactCover(M, A, c.size, c.size, doAO, rects)
    ensures CoverCells(reg, c, pl, doAO, skipRevAo, rects)
  {
    forall n, j, k | 0 <= n < |rects| && 0 <= j < c.size && 0 <= k < c.size && InRect(rects[n], j, k)
      ensures CellCovered(reg, c, pl, doAO, skipRevAo, rects[n], j, k)
    {
      CoverCellFacts(M, A, c.size, doAO, rects, n, j, k);
      CellMeaning(reg, c, pl, doAO, skipRevAo, isSolid, M, A, nf, rects[n], j, k);
    }
  }

  /** A cell of a quad of an exact cover carries the quad's nonzero value and
      AO. */
  lemma CoverCellFacts(M: seq<int>, A: seq<int>, len: int, doAO: bool, rects: seq<Rect>, n: int, j: int, k: int)
    requires ExactCover(M, A, len, len, doAO, rects)
    requires 0 <= n < |rects| && InRect(rects[n], j, k)
    ensures rects[n].val != 0 && At(M, len, j, k) == rects[n].val && (doAO ==> At(A, len, j, k) == rects[n].ao)
  {
    assert RectOk(rects[n], len, len);
  }

  /** The facts about one plane's mask that the cover lemmas draw on. */
  ghost predicate MaskContext(reg: Registry, c: Chunk, pl: Plane, doAO: bool, skipRevAo: bool,
                              isSolid: (int, int, int) -> bool, M: seq<int>, A: seq<int>, nf: int)
  {
    && c.Valid(reg) && PlaneOk(c, pl)
    && MaskOf(reg, c, pl, doAO, isSolid, skipRevAo, M, A, nf)
    && AgreeAround(isSolid, NeighbourhoodSolid(reg, c, pl.d), c.size)
  }

  lemma CoverRasterMeaning(reg: Registry, c: Chunk, pl: Plane, doAO: bool, skipRevAo: bool,
                           isSolid: (int, int, int) -> bool, M: seq<int>, A: seq<int>, nf: int, rects: seq<Rect>)
    requires c.Valid(reg) && PlaneOk(c, pl)
    requires MaskOf(reg, c, pl, doAO, isSolid, skipRevAo, M, A, nf)
    requires ExactCover(M, A, c.size, c.size, doAO, rects)
    ensures CoverRaster(reg, c, pl, rects)
  {
  }

  /** A cell of a quad: its mask value is the quad's, and, with AO, the
      quad's AO is the one its face gets from the neighbourhood. */
  lemma CellMeaning(reg: Registry, c: Chunk, pl: Plane, doAO: bool, skipRevAo: bool,
                    isSolid: (int, int, int) -> bool, M: seq<int>, A: seq<int>, nf: int, r: Rect, j: int, k: int)
    requires MaskContext(reg, c, pl, doAO, skipRevAo, isSolid, M, A, nf) && 0 <= j < c.size && 0 <= k < c.size
    requires r.val != 0 && At(M, c.size, j, k) == r.val && (doAO ==> At(A, c.size, j, k) == r.ao)
    ensures CellCovered(reg, c, pl, doAO, skipRevAo, r, j, k)
  {
    PairValid(reg, c, pl);
    var p := PairOf(c, pl);
    if doAO {
      PackAOLocal(isSolid, NeighbourhoodSolid(reg, c, pl.d), c.size, p.iB, p.iA, j, k, skipRevAo);
      PackAOLocal(isSolid, NeighbourhoodSolid(reg, c, pl.d), c.size, p.iA, p.iB, j, k, skipRevAo);
    }
  }

  /** The mask and AO mask constructMeshMask built for plane `pl` are a
      mask and an AO mask of its faces. */
  lemma MaskFaces(reg: Registry, c: Chunk, pl: Plane, doAO: bool, skipRevAo: bool,
                  isSolid: (int, int, int) -> bool, M: seq<int>, A: seq<int>, nf: int)
    requires MaskContext(reg, c, pl, doAO, skipRevAo, isSolid, M, A, nf)
    requires !doAO ==> forall n :: 0 <= n < |A| ==> A[n] == 0
    ensures FacesOf(reg, c, pl, doAO, skipRevAo, M, A)
  {
    forall j, k | 0 <= j < c.size && 0 <= k < c.size
      ensures && At(M, c.size, j, k) == MaskValue(PlaneFace(reg, c, pl, j, k))
              && (doAO && PlaneFace(reg, c, pl, j, k) != NoFace ==>
                    At(A, c.size, j, k) == FaceAO(reg, c, pl, skipRevAo, j, k))
              && (!doAO ==> At(A, c.size, j, k) == 0)
    {
      MaskFace(reg, c, pl, doAO, skipRevAo, isSolid, M, A, nf, j, k);
    }
  }

  lemma MaskFace(reg: Registry, c: Chunk, pl: Plane, doAO: bool, skipRevAo: bool,
                 isSolid: (int, int, int) -> bool, M: seq<int>, A: seq<int>, nf: int, j: int, k: int)
    requires MaskContext(reg, c, pl, doAO, skipRevAo, isSolid, M, A, nf) && 0 <= j < c.size && 0 <= k < c.size
    requires !doAO ==> forall n :: 0 <= n < |A| ==> A[n] == 0
    ensures At(M, c.size, j, k) == MaskValue(PlaneFace(reg, c, pl, j, k))
    ensures doAO && PlaneFace(reg, c, pl, j, k) != NoFace ==> At(A, c.size, j, k) == FaceAO(reg, c, pl, skipRevAo, j, k)
    ensures !doAO ==> At(A, c.size, j, k) == 0
  {
    PairValid(reg, c, pl);
    var p := PairOf(c, pl);
    if doAO {
      PackAOLocal(isSolid, NeighbourhoodSolid(reg, c, pl.d), c.size, p.iB, p.iA, j, k, skipRevAo);
      PackAOLocal(isSolid, NeighbourhoodSolid(reg, c, pl.d), c.size, p.iA, p.iB, j, k, skipRevAo);
    }
  }

  /** A plane's exact cover is an exact cover of any mask and AO mask of its
      faces. */
  lemma PlaneExact(reg: Registry, c: Chunk, pl: Plane, doAO: bool, skipRevAo: bool, rects: seq<Rect>,
                   M: seq<int>, A: seq<int>)
    requires c.Valid(reg) && PlaneOk(c, pl) && PlaneCover(reg, c, pl, doAO, skipRevAo, rects)
    requires FacesOf(reg, c, pl, doAO, skipRevAo, M, A)
    ensures ExactCover(M, A, c.size, c.size, doAO, rects)
  {
    QuadCells(reg, c, pl, doAO, skipRevAo, rects, M, A);
    PlaneRaster(reg, c, pl, doAO, skipRevAo, rects, M, A);
    assert (forall p :: 0 <= p < |rects| ==> RectOk(rects[p], c.size, c.size)) && Disjoint(rects);
    ExactFrom(M, A, c.size, c.size, doAO, rects);
  }

  lemma QuadCells(reg: Registry, c: Chunk, pl: Plane, doAO: bool, skipRevAo: bool, rects: seq<Rect>,
                  M: seq<int>, A: seq<int>)
    requires c.Valid(reg) && PlaneOk(c, pl) && PlaneCover(reg, c, pl, doAO, skipRevAo, rects)
    requires FacesOf(reg, c, pl, doAO, skipRevAo, M, A)
    ensures forall p, j, k :: 0 <= p < |rects| && InRect(rects[p], j, k) ==>
              At(M, c.size, j, k) == rects[p].val && (doAO ==> At(A, c.size, j, k) == rects[p].ao)
    ensures forall p :: 0 <= p < |rects| ==> At(A, c.size, rects[p].j, rects[p].k) == rects[p].ao
  {
    forall p, j, k | 0 <= p < |rects| && InRect(rects[p], j, k)
      ensures At(M, c.size, j, k) == rects[p].val && (doAO ==> At(A, c.size, j, k) == rects[p].ao)
    {
      QuadCell(reg, c, pl, doAO, skipRevAo, rects, p, j, k, M, A);
    }
    forall p | 0 <= p < |rects|
      ensures At(A, c.size, rects[p].j, rects[p].k) == rects[p].ao
    {
      QuadCell(reg, c, pl, doAO, skipRevAo, rects, p, rects[p].j, rects[p].k, M, A);
    }
  }

  /** Painting the quads of the plane's cover gives any mask of its faces. */
  lemma PlaneRaster(reg: Registry, c: Chunk, pl: Plane, doAO: bool, skipRevAo: bool, rects: seq<Rect>,
                    M: seq<int>, A: seq<int>)
    requires c.Valid(reg) && PlaneOk(c, pl) && CoverRaster(reg, c, pl, rects)
    requires FacesOf(reg, c, pl, doAO, skipRevAo, M, A)
    ensures forall j, k :: 0 <= j < c.size && 0 <= k < c.size ==> RasterAt(rects, j, k) == At(M, c.size, j, k)
  {
  }

  /** A cell of a quad of the plane's cover holds the quad's value and AO in
      any mask and AO mask of the plane's faces. */
  lemma QuadCell(reg: Registry, c: Chunk, pl: Plane, doAO: bool, skipRevAo: bool, rects: seq<Rect>,
                 p: int, j: int, k: int, M: seq<int>, A: seq<int>)
    requires c.Valid(reg) && PlaneOk(c, pl) && PlaneCover(reg, c, pl, doAO, skipRevAo, rects)
    requires FacesOf(reg, c, pl, doAO, skipRevAo, M, A)
    requires 0 <= p < |rects| && InRect(rects[p], j, k)
    ensures At(M, c.size, j, k) == rects[p].val && At(A, c.size, j, k) == rects[p].ao
  {
    assert RectOk(rects[p], c.size, c.size);
    assert CoverCells(reg, c, pl, doAO, skipRevAo, rects);
    assert CellCovered(reg, c, pl, doAO, skipRevAo, rects[p], j, k);
  }

  /** Two masks of the same plane's faces agree on every cell, and, with
      AO, on the AO of every face cell. */
  lemma FacesAgree(reg: Registry, c: Chunk, pl: Plane, doAO: bool, skipRevAo: bool,
                   M1: seq<int>, A1: seq<int>, M2: seq<int>, A2: seq<int>)
    requires c.Valid(reg) && PlaneOk(c, pl)
    requires FacesOf(reg, c, pl, doAO, skipRevAo, M1, A1) && FacesOf(reg, c, pl, doAO, skipRevAo, M2, A2)
    ensures forall j, k :: 0 <= j < c.size && 0 <= k < c.size ==> At(M2, c.size, j, k) == At(M1, c.size, j, k)
    ensures doAO ==> forall j, k :: 0 <= j < c.size && 0 <= k < c.size && At(M1, c.size, j, k) != 0 ==>
              At(A2, c.size, j, k) == At(A1, c.size, j, k)
  {
  }

  /** A plane's quads are fixed by the chunk: two logged runs of the same
      plane hold the same quads in the same order. */
  lemma CoveredUnique(reg: Registry, c: Chunk, doAO: bool, skipRevAo: bool, run1: PlaneRun, run2: PlaneRun)
    requires c.Valid(reg) && run1.plane == run2.plane
    requires Covered(reg, c, doAO, skipRevAo, run1) && Covered(reg, c, doAO, skipRevAo, run2)
    ensures run1.rects == run2.rects
  {
    var pl, M, A := run1.plane, run1.mask, run1.ao;
    PlaneExact(reg, c, pl, doAO, skipRevAo, run1.rects, M, A);
    PlaneExact(reg, c, pl, doAO, skipRevAo, run2.rects, M, A);
    FacesAgree(reg, c, pl, doAO, skipRevAo, run2.mask, run2.ao, M, A);
    GreedySame(run2.mask, run2.ao, M, A, c.size, c.size, doAO, run2.rects);
    GreedyUnique(M, A, c.size, c.size, doAO, run1.rects, run2.rects);
  }

  /** What `mesh` appends is fixed by the chunk: two logs of the same
      planes, each plane covered, hold the same quads plane by plane. */
  lemma {:induction false} LogUnique(reg: Registry, c: Chunk, doAO: bool, skipRevAo: bool,
                                     log1: seq<PlaneRun>, log2: seq<PlaneRun>)
    requires c.Valid(reg) && Planes(log1) == Planes(log2)
    requires forall n :: 0 <= n < |log1| ==> Covered(reg, c, doAO, skipRevAo, log1[n])
    requires forall n :: 0 <= n < |log2| ==> Covered(reg, c, doAO, skipRevAo, log2[n])
    ensures |log1| == |log2| && forall n :: 0 <= n < |log1| ==> log1[n].rects == log2[n].rects
    decreases |log1|
  {
    PlanesLength(log1);
    PlanesLength(log2);
    if log1 != [] {
      var m := |log1| - 1;
      var p1, p2 := Planes(log1[..m]), Planes(log2[..m]);
      assert p1 + [log1[m].plane] == p2 + [log2[m].plane];
      assert p1 == (p1 + [log1[m].plane])[..m] && p2 == (p2 + [log2[m].plane])[..m];
      LogUnique(reg, c, doAO, skipRevAo, log1[..m], log2[..m]);
      CoveredUnique(reg, c, doAO, skipRevAo, log1[m], log2[m]);
      forall n | 0 <= n < |log1|
        ensures log1[n].rects == log2[n].rects
      {
        if n < m {
          assert log1[n] == log1[..m][n] && log2[n] == log2[..m][n];
        }
      }
    }
  }

  /** Logs of the same planes and quads add the same faces to a
      faceDataSet view, so with LogUnique the view `mesh` returns is fixed
      by the chunk. */
  lemma {:induction false} AddPlanesSame(view: map<int, seq<Face>>, log1: seq<PlaneRun>, log2: seq<PlaneRun>,
                                         matToTerrain: seq<int>)
    requires forall n :: 0 <= n < |log1| ==> HasTerrain(log1[n].rects, matToTerrain)
    requires Planes(log1) == Planes(log2)
    requires |log1| == |log2| && forall n :: 0 <= n < |log1| ==> log1[n].rects == log2[n].rects
    ensures AddPlanes(view, log1, matToTerrain) == AddPlanes(view, log2, matToTerrain)
    decreases |log1|
  {
    if log1 != [] {
      var m := |log1| - 1;
      var p1, p2 := Planes(log1[..m]), Planes(log2[..m]);
      PlanesLength(log1[..m]);
      assert p1 + [log1[m].plane] == p2 + [log2[m].plane];
      assert p1 == (p1 + [log1[m].plane])[..m] && p2 == (p2 + [log2[m].plane])[..m];
      AddPlanesSame(view, log1[..m], log2[..m], matToTerrain);
    }
  }

  lemma {:induction false} PlanesLength(log: seq<PlaneRun>)
    ensures |Planes(log)| == |log|
  {
    if log != [] {
      PlanesLength(log[..|log| - 1]);
    }
  }
}
