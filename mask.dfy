/** Building the face mask of one plane (constructMeshMask,
    terrainMesher.js 754-839): for each cell (j, k) of the plane between layer
    iA of view A and layer iB of view B, the face-culling rules decide whether
    a face is drawn there and which of the two voxels it belongs to. The mask
    cell gets the face's material, negative when it points towards A, and the
    AO mask cell its packed ambient occlusion. */
module Mask {
  import opened Common
  import opened Views
  import opened Registry
  import opened AO
  import opened Grid

  /** The outcome of the culling rules for one pair of voxels. */
  datatype Choice =
    | NoFace
    | FaceOfA(mat: int)   // A's face, pointing +i towards B: mask value mat
    | FaceOfB(mat: int)   // B's face, pointing -i towards A: mask value -mat

  /** The signed mask value of a choice; no face leaves the cell 0. */
  function MaskValue(c: Choice): int
  {
    match c
    case NoFace => 0
    case FaceOfA(m) => m
    case FaceOfB(m) => -m
  }

  /** The rules on opacity and face material alone: no face between two
      opaque voxels or between equal materials; otherwise the opaque side,
      or the side whose neighbour has no material, is drawn; two different
      see-through materials draw nothing. */
  function Decide(op0: bool, op1: bool, m0: int, m1: int): Choice
  {
    if op0 && op1 then NoFace
    else if m0 == m1 then NoFace
    else if op0 || m1 == 0 then FaceOfA(m0)
    else if op1 || m0 == 0 then FaceOfB(m1)
    else NoFace
  }

  /** The face between voxel id0 (layer A) and voxel id1 (layer B) across
      axis d: equal IDs never have a face between them; A's face material is
      the one for direction 2d, B's the one for direction 2d + 1. */
  function FaceBetween(reg: Registry, d: int, id0: int, id1: int): Choice
    requires reg.Valid() && IsAxis(d) && reg.IsVoxelId(id0) && reg.IsVoxelId(id1)
  {
    if id0 == id1 then NoFace
    else Decide(reg.opacity[id0], reg.opacity[id1], reg.MatIdGetter(id0, 2 * d), reg.MatIdGetter(id1, 2 * d + 1))
  }

  /** The culling rules of the mask, both ways: a face is drawn exactly when
      the IDs differ, the voxels are not both opaque, their face materials
      differ and one side is opaque or lacks a material; the face drawn is
      the opaque or material-less neighbour's counterpart. */
  lemma {:induction false} CullingRules(reg: Registry, d: int, id0: int, id1: int)
    requires reg.Valid() && IsAxis(d) && reg.IsVoxelId(id0) && reg.IsVoxelId(id1)
    ensures var op0, op1 := reg.opacity[id0], reg.opacity[id1];
      var m0, m1 := reg.MatIdGetter(id0, 2 * d), reg.MatIdGetter(id1, 2 * d + 1);
      var r := FaceBetween(reg, d, id0, id1);
      && (r != NoFace <==> id0 != id1 && !(op0 && op1) && m0 != m1 && (op0 || op1 || m0 == 0 || m1 == 0))
      && (r.FaceOfA? <==> r != NoFace && (op0 || m1 == 0))
      && (r.FaceOfA? ==> r.mat == m0 && m0 != m1)
      && (r.FaceOfB? ==> r.mat == m1 && m1 != 0 && m0 != m1)
  {
  }

  /** Mirror: with materials on both sides, swapping the two voxels swaps
      the side whose face is drawn and nothing else. */
  lemma MirrorRule(op0: bool, op1: bool, m0: int, m1: int)
    requires m0 != 0 && m1 != 0
    ensures Decide(op1, op0, m1, m0) == Mirror(Decide(op0, op1, m0, m1))
  {
  }

  function Mirror(c: Choice): Choice
  {
    match c
    case NoFace => NoFace
    case FaceOfA(m) => FaceOfB(m)
    case FaceOfB(m) => FaceOfA(m)
  }

  /** The arguments of one constructMeshMask call: the sweep axis, the two
      transposed views with their layer coordinates, and the whole-layer
      voxel table (`null` as None). */
  datatype LayerPair = LayerPair(d: int, arrA: VoxView, iA: int, arrB: VoxView, iB: int,
                                 wholeLayerVoxel: Option<seq<int>>)
  {
    /** `arrA.shape[1]`: the side of the plane. */
    function Len(): int
    {
      arrA.cs
    }

    /** Both layers lie inside their views, which are transposed along axis d
        over chunks of the same side holding registered voxel IDs. */
    predicate Valid(reg: Registry)
    {
      && reg.Valid() && IsAxis(d) && arrA.axis == d && arrB.axis == d
      && 0 < Len() && arrB.cs == Len()
      && |arrA.data| == Len() * Len() * Len() && |arrB.data| == Len() * Len() * Len()
      && 0 <= iA + arrA.shift < Len() && 0 <= iB + arrB.shift < Len()
      && (forall x :: 0 <= x < |arrA.data| ==> reg.IsVoxelId(arrA.data[x]))
      && (forall x :: 0 <= x < |arrB.data| ==> reg.IsVoxelId(arrB.data[x]))
    }

    /** `wholeLayerVoxel && wholeLayerVoxel[k] >= 0`; a read past the end is
        `undefined`, which is not >= 0. */
    predicate Skipped(k: int)
    {
      wholeLayerVoxel.Some? && 0 <= k < |wholeLayerVoxel.value| && wholeLayerVoxel.value[k] >= 0
    }

    /** The voxel IDs on either side of cell (j, k). */
    function IdA(reg: Registry, j: int, k: int): (id: int)
      requires Valid(reg) && 0 <= j < Len() && 0 <= k < Len()
      ensures reg.IsVoxelId(id)
    {
      ReadAt(arrA, iA, j, k);
      arrA.Get(iA, j, k)
    }

    function IdB(reg: Registry, j: int, k: int): (id: int)
      requires Valid(reg) && 0 <= j < Len() && 0 <= k < Len()
      ensures reg.IsVoxelId(id)
    {
      ReadAt(arrB, iB, j, k);
      arrB.Get(iB, j, k)
    }

    /** What cell (j, k) of the mask gets: nothing in a skipped row,
        otherwise the face between the two voxels. */
    function CellFace(reg: Registry, j: int, k: int): Choice
      requires Valid(reg) && 0 <= j < Len() && 0 <= k < Len()
    {
      if Skipped(k) then NoFace else FaceBetween(reg, d, IdA(reg, j, k), IdB(reg, j, k))
    }

    /** The packed AO of a drawn face, computed on the side it points to:
        `packAOMask(isSolid, iB, iA, j, k, ...)` for A's face and
        `packAOMask(isSolid, iA, iB, j, k, ...)` for B's. */
    function CellAO(isSolid: (int, int, int) -> bool, skipRevAo: bool, j: int, k: int, c: Choice): int
    {
      match c
      case NoFace => 0
      case FaceOfA(_) => PackAOMask(isSolid, iB, iA, j, k, skipRevAo)
      case FaceOfB(_) => PackAOMask(isSolid, iA, iB, j, k, skipRevAo)
    }

    /** Number of face cells among the first j cells of row k. */
    function RowFaces(reg: Registry, k: int, j: int): nat
      requires Valid(reg) && 0 <= k < Len() && j <= Len()
      decreases j
    {
      if j <= 0 then 0
      else RowFaces(reg, k, j - 1) + (if CellFace(reg, j - 1, k) != NoFace then 1 else 0)
    }

    /** Number of face cells in rows 0 .. k - 1. */
    function FacesInRows(reg: Registry, k: int): nat
      requires Valid(reg) && k <= Len()
      decreases k
    {
      if k <= 0 then 0 else FacesInRows(reg, k - 1) + RowFaces(reg, k - 1, Len())
    }
  }

  /** Skipping is sound: when wholeLayerVoxel[k] >= 0 names the voxel that
      fills row k of both layers, every cell of the row would have had no
      face anyway, so the mask is the one the pair would get without the
      whole-layer table. */
  lemma SkipChangesNothing(reg: Registry, p: LayerPair, j: int, k: int)
    requires p.Valid(reg) && 0 <= j < p.Len() && 0 <= k < p.Len()
    requires p.Skipped(k) ==>
      p.IdA(reg, j, k) == p.wholeLayerVoxel.value[k] == p.IdB(reg, j, k)
    ensures p.CellFace(reg, j, k) == p.(wholeLayerVoxel := None).CellFace(reg, j, k)
  {
  }

  /** How the loops walk the flat data of both views: where row 0 of the
      layer starts (`arrA.index(iA, 0, 0)`) and how far a step along j
      (`arrA.stride[1]`) and along k (`arrA.stride[2]`) moves; then B's. */
  datatype Walk = Walk(startA: int, jA: int, kA: int, startB: int, jB: int, kB: int)

  function WalkOf(p: LayerPair): Walk
  {
    Walk(p.arrA.FlatIndex(p.iA, 0, 0), Stride(p.Len(), UAxis(p.arrA.axis)), Stride(p.Len(), VAxis(p.arrA.axis)),
         p.arrB.FlatIndex(p.iB, 0, 0), Stride(p.Len(), UAxis(p.arrB.axis)), Stride(p.Len(), VAxis(p.arrB.axis)))
  }

  // ---- What the loops fill in, as tables of rows ----

  /** A len x len table: T[k][j] belongs to cell (j, k). */
  ghost predicate Shaped(T: seq<seq<int>>, len: int)
  {
    |T| == len && forall k :: 0 <= k < len ==> |T[k]| == len
  }

  /** Entry (j, k) of a table, 0 outside it. */
  function Entry(T: seq<seq<int>>, j: int, k: int): int
  {
    if 0 <= k < |T| && 0 <= j < |T[k]| then T[k][j] else 0
  }

  /** T is the mask every cell should end up with, TA the AO mask (the
      face's packed AO where AO is on and there is a face, the old value A0
      elsewhere), and F flags the cells with a face. */
  ghost predicate Targets(reg: Registry, p: LayerPair, doAO: bool, isSolid: (int, int, int) -> bool,
                          skipRevAo: bool, A0: seq<int>, T: seq<seq<int>>, TA: seq<seq<int>>, F: seq<seq<int>>)
    requires p.Valid(reg)
  {
    && Shaped(T, p.Len()) && Shaped(TA, p.Len()) && Flags(reg, p, F)
    && (forall j, k {:trigger Entry(T, j, k)} :: 0 <= j < p.Len() && 0 <= k < p.Len() ==>
          Entry(T, j, k) == MaskValue(p.CellFace(reg, j, k)))
    && (forall j, k {:trigger Entry(TA, j, k)} :: 0 <= j < p.Len() && 0 <= k < p.Len() ==>
          Entry(TA, j, k) == if doAO && p.CellFace(reg, j, k) != NoFace
                             then p.CellAO(isSolid, skipRevAo, j, k, p.CellFace(reg, j, k))
                             else At(A0, p.Len(), j, k))
  }

  /** F flags the cells with a face. */
  ghost predicate Flags(reg: Registry, p: LayerPair, F: seq<seq<int>>)
    requires p.Valid(reg)
  {
    && Shaped(F, p.Len())
    && forall j, k {:trigger Entry(F, j, k)} :: 0 <= j < p.Len() && 0 <= k < p.Len() ==>
         Entry(F, j, k) == if p.CellFace(reg, j, k) != NoFace then 1 else 0
  }

  /** The target tables exist. */
  lemma MakeTargets(reg: Registry, p: LayerPair, doAO: bool, isSolid: (int, int, int) -> bool,
                    skipRevAo: bool, A0: seq<int>)
    returns (T: seq<seq<int>>, TA: seq<seq<int>>, F: seq<seq<int>>)
    requires p.Valid(reg)
    ensures Targets(reg, p, doAO, isSolid, skipRevAo, A0, T, TA, F)
  {
    var len := p.Len();
    T := seq(len, k requires 0 <= k < len =>
      seq(len, j requires 0 <= j < len => MaskValue(p.CellFace(reg, j, k))));
    TA := seq(len, k requires 0 <= k < len =>
      seq(len, j requires 0 <= j < len =>
        if doAO && p.CellFace(reg, j, k) != NoFace
        then p.CellAO(isSolid, skipRevAo, j, k, p.CellFace(reg, j, k))
        else At(A0, len, j, k)));
    F := seq(len, k requires 0 <= k < len =>
      seq(len, j requires 0 <= j < len => if p.CellFace(reg, j, k) != NoFace then 1 else 0));
  }

  function Total(s: seq<int>): int
  {
    if s == [] then 0 else Total(s[..|s| - 1]) + s[|s| - 1]
  }

  /** Sum of rows 0 .. k - 1. */
  function RowsTotal(F: seq<seq<int>>, k: int): int
    requires k <= |F|
    decreases k
  {
    if k <= 0 then 0 else RowsTotal(F, k - 1) + Total(F[k - 1])
  }

  lemma TotalSnoc(s: seq<int>, j: int)
    requires 0 <= j < |s|
    ensures Total(s[..j + 1]) == Total(s[..j]) + s[j]
  {
    assert s[..j + 1][..j] == s[..j];
  }

  lemma {:induction false} TotalZero(s: seq<int>)
    requires forall j :: 0 <= j < |s| ==> s[j] == 0
    ensures Total(s) == 0
  {
    if s != [] {
      TotalZero(s[..|s| - 1]);
    }
  }

  /** Rows 0 .. k - 1 of a table laid end to end, as the mask stores them. */
  function Rows(T: seq<seq<int>>, k: int): seq<int>
    requires 0 <= k <= |T|
  {
    if k == 0 then [] else Rows(T, k - 1) + T[k - 1]
  }

  lemma {:induction false} RowsLength(T: seq<seq<int>>, len: int, k: int)
    requires Shaped(T, len) && 0 <= k <= len
    ensures |Rows(T, k)| == RowStart(len, k)
  {
    if k > 0 {
      RowsLength(T, len, k - 1);
    }
  }

  /** Laid end to end, entry (j, k) of the table sits at mask cell (j, k). */
  lemma {:induction false} RowsAt(T: seq<seq<int>>, len: int, K: int, j: int, k: int)
    requires Shaped(T, len) && 0 <= j < len && 0 <= k < K <= len
    ensures Cell(len, j, k) < |Rows(T, K)| && Rows(T, K)[Cell(len, j, k)] == T[k][j]
  {
    RowsLength(T, len, K - 1);
    if k < K - 1 {
      RowsAt(T, len, K - 1, j, k);
    }
  }

  /** Writing entry j of a row into a mask whose cells n0 .. n0 + j - 1
      already hold the row's first j entries. */
  lemma SpliceStep(X: seq<int>, row: seq<int>, n0: int, j: int, m: seq<int>, m': seq<int>)
    requires 0 <= n0 && 0 <= j < |row| && n0 + |row| <= |X|
    requires m == X[..n0] + row[..j] + X[n0 + j..]
    requires m' == m[n0 + j := row[j]]
    ensures m[n0 + j] == X[n0 + j]
    ensures m' == X[..n0] + row[..j + 1] + X[n0 + j + 1..]
  {
    assert m[n0 + j] == X[n0 + j..][0];
    assert forall c :: 0 <= c < |m'| ==> m'[c] == (X[..n0] + row[..j + 1] + X[n0 + j + 1..])[c];
  }

  lemma RowsTotalStep(F: seq<seq<int>>, k: int)
    requires 0 <= k < |F|
    ensures RowsTotal(F, k + 1) == RowsTotal(F, k) + Total(F[k])
  {
  }

  lemma {:induction false} CountAppend(a: seq<int>, b: seq<int>)
    ensures Count(a + b) == Count(a) + Count(b)
    decreases |b|
  {
    if b != [] {
      var b' := b[..|b| - 1];
      CountAppend(a, b');
      assert (a + b)[..|a + b| - 1] == a + b';
    } else {
      assert a + b == a;
    }
  }

  /** A row has no more non-zero cells than face flags, when every flag is
      0 or 1 and every non-zero cell is flagged. */
  lemma {:induction false} RowCountBound(t: seq<int>, f: seq<int>)
    requires |t| == |f|
    requires forall j :: 0 <= j < |f| ==> (f[j] == 0 || f[j] == 1) && (t[j] != 0 ==> f[j] == 1)
    ensures Count(t) <= Total(f)
    decreases |t|
  {
    if t != [] {
      RowCountBound(t[..|t| - 1], f[..|f| - 1]);
    }
  }

  /** Every face flag is 0 or 1, and every non-zero mask target is flagged. */
  lemma TargetFlags(reg: Registry, p: LayerPair, doAO: bool, isSolid: (int, int, int) -> bool,
                    skipRevAo: bool, A0: seq<int>, T: seq<seq<int>>, TA: seq<seq<int>>, F: seq<seq<int>>, k: int)
    requires p.Valid(reg) && Targets(reg, p, doAO, isSolid, skipRevAo, A0, T, TA, F) && 0 <= k < p.Len()
    ensures forall j :: 0 <= j < |F[k]| ==> (F[k][j] == 0 || F[k][j] == 1) && (T[k][j] != 0 ==> F[k][j] == 1)
  {
    forall j | 0 <= j < |F[k]|
      ensures (F[k][j] == 0 || F[k][j] == 1) && (T[k][j] != 0 ==> F[k][j] == 1)
    {
      assert Entry(T, j, k) == T[k][j] && Entry(F, j, k) == F[k][j];
    }
  }

  /** Rows 0 .. k - 1 have no more non-zero cells than face flags. */
  lemma {:induction false} RowsCountBound(reg: Registry, p: LayerPair, doAO: bool, isSolid: (int, int, int) -> bool,
                                          skipRevAo: bool, A0: seq<int>, T: seq<seq<int>>, TA: seq<seq<int>>,
                                          F: seq<seq<int>>, k: int)
    requires p.Valid(reg) && Targets(reg, p, doAO, isSolid, skipRevAo, A0, T, TA, F) && 0 <= k <= p.Len()
    ensures Count(Rows(T, k)) <= RowsTotal(F, k)
    decreases k
  {
    if k > 0 {
      RowsCountBound(reg, p, doAO, isSolid, skipRevAo, A0, T, TA, F, k - 1);
      TargetFlags(reg, p, doAO, isSolid, skipRevAo, A0, T, TA, F, k - 1);
      RowCountBound(T[k - 1], F[k - 1]);
      CountAppend(Rows(T, k - 1), T[k - 1]);
    }
  }

  // ---- The loops ----

  /** The targets of cell j of row k: the voxel IDs at flat indices
      dA0 + j * sA of A and dB0 + j * sB of B are registered, and t, ta and f
      hold what the culling rules give the cell, the face's AO (or the old
      AO value a0[j]) and the face flag. */
  ghost predicate CellTargets(reg: Registry, p: LayerPair, doAO: bool, isSolid: (int, int, int) -> bool,
                              skipRevAo: bool, k: int, dA0: int, sA: int, dB0: int, sB: int, a0: seq<int>,
                              t: seq<int>, ta: seq<int>, f: seq<int>, j: int)
    requires reg.Valid() && IsAxis(p.d) && 0 <= j < |t| && |a0| == |ta| == |f| == |t|
  {
    var dA, dB := dA0 + RowStart(sA, j), dB0 + RowStart(sB, j);
    && 0 <= dA < |p.arrA.data| && 0 <= dB < |p.arrB.data|
    && reg.IsVoxelId(p.arrA.data[dA]) && reg.IsVoxelId(p.arrB.data[dB])
    && var c := FaceBetween(reg, p.d, p.arrA.data[dA], p.arrB.data[dB]);
       && t[j] == MaskValue(c)
       && ta[j] == (if doAO && c != NoFace then p.CellAO(isSolid, skipRevAo, j, k, c) else a0[j])
       && f[j] == (if c != NoFace then 1 else 0)
  }

  /** Every cell of the row has its targets. */
  ghost predicate RowTargets(reg: Registry, p: LayerPair, doAO: bool, isSolid: (int, int, int) -> bool,
                             skipRevAo: bool, k: int, dA0: int, sA: int, dB0: int, sB: int, a0: seq<int>,
                             t: seq<int>, ta: seq<int>, f: seq<int>)
    requires reg.Valid() && IsAxis(p.d)
  {
    && |a0| == |ta| == |f| == |t|
    && forall j {:trigger CellTargets(reg, p, doAO, isSolid, skipRevAo, k, dA0, sA, dB0, sB, a0, t, ta, f, j)} ::
         0 <= j < |t| ==> CellTargets(reg, p, doAO, isSolid, skipRevAo, k, dA0, sA, dB0, sB, a0, t, ta, f, j)
  }

  /** The targets of a row that is not skipped, in terms of flat indices. */
  lemma RowSetup(reg: Registry, p: LayerPair, T: seq<seq<int>>, TA: seq<seq<int>>, F: seq<seq<int>>,
                 A0: seq<int>, doAO: bool, isSolid: (int, int, int) -> bool, skipRevAo: bool, k: int, n: int)
    requires p.Valid(reg) && 0 <= k < p.Len() && !p.Skipped(k) && n == RowStart(p.Len(), k)
    requires Targets(reg, p, doAO, isSolid, skipRevAo, A0, T, TA, F) && n + p.Len() <= |A0|
    ensures RowTargets(reg, p, doAO, isSolid, skipRevAo, k,
                       p.arrA.FlatIndex(p.iA, 0, k), Stride(p.Len(), UAxis(p.arrA.axis)),
                       p.arrB.FlatIndex(p.iB, 0, k), Stride(p.Len(), UAxis(p.arrB.axis)),
                       A0[n..n + p.Len()], T[k], TA[k], F[k])
  {
    var len := p.Len();
    var dA0, sA := p.arrA.FlatIndex(p.iA, 0, k), Stride(len, UAxis(p.arrA.axis));
    var dB0, sB := p.arrB.FlatIndex(p.iB, 0, k), Stride(len, UAxis(p.arrB.axis));
    var a0 := A0[n..n + len];
    forall j | 0 <= j < len
      ensures CellTargets(reg, p, doAO, isSolid, skipRevAo, k, dA0, sA, dB0, sB, a0, T[k], TA[k], F[k], j)
    {
      CellSetup(reg, p, T, TA, F, A0, doAO, isSolid, skipRevAo, j, k, n, a0);
    }
  }

  lemma CellSetup(reg: Registry, p: LayerPair, T: seq<seq<int>>, TA: seq<seq<int>>, F: seq<seq<int>>,
                  A0: seq<int>, doAO: bool, isSolid: (int, int, int) -> bool, skipRevAo: bool,
                  j: int, k: int, n: int, a0: seq<int>)
    requires p.Valid(reg) && 0 <= j < p.Len() && 0 <= k < p.Len() && !p.Skipped(k) && n == RowStart(p.Len(), k)
    requires Targets(reg, p, doAO, isSolid, skipRevAo, A0, T, TA, F) && n + p.Len() <= |A0|
    requires a0 == A0[n..n + p.Len()]
    ensures CellTargets(reg, p, doAO, isSolid, skipRevAo, k,
                        p.arrA.FlatIndex(p.iA, 0, k), Stride(p.Len(), UAxis(p.arrA.axis)),
                        p.arrB.FlatIndex(p.iB, 0, k), Stride(p.Len(), UAxis(p.arrB.axis)),
                        a0, T[k], TA[k], F[k], j)
  {
    RowIndex(p.arrA, p.iA, j, k);
    RowIndex(p.arrB, p.iB, j, k);
    ReadAt(p.arrA, p.iA, j, k);
    ReadAt(p.arrB, p.iB, j, k);
    var dA := p.arrA.FlatIndex(p.iA, 0, k) + RowStart(Stride(p.Len(), UAxis(p.arrA.axis)), j);
    var dB := p.arrB.FlatIndex(p.iB, 0, k) + RowStart(Stride(p.Len(), UAxis(p.arrB.axis)), j);
    var c := FaceBetween(reg, p.d, p.arrA.data[dA], p.arrB.data[dB]);
    assert c == p.CellFace(reg, j, k);
    assert T[k][j] == Entry(T, j, k) && TA[k][j] == Entry(TA, j, k) && F[k][j] == Entry(F, j, k);
    assert a0[j] == At(A0, p.Len(), j, k);
  }

  /** One cell of the inner loop (terrainMesher.js 796-835): the values
      CellValues decides from the IDs at the flat indices dA and dB are
      written when a face is drawn. The cell comes in zero and its AO cell
      with the old value a0[j]; the two get their targets t[j] and ta[j],
      and no other cell is written. */
  method MaskCell(reg: Registry, p: LayerPair, j: int, k: int, n: int, dA: int, dB: int,
                  mask: array<int>, aoMask: array<int>, doAO: bool,
                  isSolid: (int, int, int) -> bool, skipRevAo: bool,
                  ghost dA0: int, ghost sA: int, ghost dB0: int, ghost sB: int,
                  ghost a0: seq<int>, ghost t: seq<int>, ghost ta: seq<int>, ghost f: seq<int>)
    returns (found: bool)
    requires reg.Valid() && IsAxis(p.d) && 0 <= j < |t| && |a0| == |ta| == |f| == |t|
    requires CellTargets(reg, p, doAO, isSolid, skipRevAo, k, dA0, sA, dB0, sB, a0, t, ta, f, j)
    requires dA == dA0 + RowStart(sA, j) && dB == dB0 + RowStart(sB, j)
    requires 0 <= n < mask.Length && n < aoMask.Length && mask != aoMask
    requires mask[n] == 0 && aoMask[n] == a0[j]
    modifies mask, aoMask
    ensures f[j] == if found then 1 else 0
    ensures mask[..] == old(mask[..])[n := t[j]]
    ensures aoMask[..] == old(aoMask[..])[n := ta[j]]
  {
    var m, ao;
    found, m, ao := CellValues(reg, p, j, k, dA, dB, doAO, isSolid, skipRevAo, dA0, sA, dB0, sB, a0, t, ta, f);
    if found {
      mask[n] := m;
      if doAO {
        aoMask[n] := ao;
      } else {
        assert aoMask[..] == old(aoMask[..])[n := ta[j]];
      }
    } else {
      assert mask[..] == old(mask[..])[n := t[j]];
      assert aoMask[..] == old(aoMask[..])[n := ta[j]];
    }
  }

  /** The decision of lines 800-818 for one cell, before anything is
      written: whether a face is drawn, its signed mask value and, when the
      AO mask is kept, its packed AO value. */
  method CellValues(reg: Registry, p: LayerPair, j: int, k: int, dA: int, dB: int, doAO: bool,
                    isSolid: (int, int, int) -> bool, skipRevAo: bool,
                    ghost dA0: int, ghost sA: int, ghost dB0: int, ghost sB: int,
                    ghost a0: seq<int>, ghost t: seq<int>, ghost ta: seq<int>, ghost f: seq<int>)
    returns (found: bool, m: int, ao: int)
    requires reg.Valid() && IsAxis(p.d) && 0 <= j < |t| && |a0| == |ta| == |f| == |t|
    requires CellTargets(reg, p, doAO, isSolid, skipRevAo, k, dA0, sA, dB0, sB, a0, t, ta, f, j)
    requires dA == dA0 + RowStart(sA, j) && dB == dB0 + RowStart(sB, j)
    ensures m == t[j] && f[j] == (if found then 1 else 0)
    ensures !found ==> m == 0
    ensures found && doAO ==> ao == ta[j]
    ensures !(found && doAO) ==> ta[j] == a0[j]
  {
    // the culling rules, in order, are FaceBetween's
    var c := FaceBetween(reg, p.d, p.arrA.data[dA], p.arrB.data[dB]);
    match c
    case NoFace =>
      found, m, ao := false, 0, 0;
    case FaceOfA(m0) =>
      found, m := true, m0;
      ao := if doAO then PackAOMask(isSolid, p.iB, p.iA, j, k, skipRevAo) else 0;
    case FaceOfB(m1) =>
      found, m := true, -m1;
      ao := if doAO then PackAOMask(isSolid, p.iA, p.iB, j, k, skipRevAo) else 0;
  }

  /** The inner loop over j for a row k that is not skipped: the flat
      indices into both views step by their j strides. */
  method MaskCells(reg: Registry, p: LayerPair, k: int, n0: int, dA0: int, jstrideA: int, dB0: int, jstrideB: int,
                 facesFound0: int, mask: array<int>, aoMask: array<int>, doAO: bool,
                 isSolid: (int, int, int) -> bool, skipRevAo: bool,
                 ghost t: seq<int>, ghost ta: seq<int>, ghost f: seq<int>)
    returns (facesFound: int)
    requires reg.Valid() && IsAxis(p.d) && |t| == p.Len() && 0 <= n0
    requires n0 + p.Len() <= mask.Length && n0 + p.Len() <= aoMask.Length && mask != aoMask
    requires RowTargets(reg, p, doAO, isSolid, skipRevAo, k, dA0, jstrideA, dB0, jstrideB,
                        aoMask[n0..n0 + p.Len()], t, ta, f)
    requires forall c :: n0 <= c < n0 + p.Len() ==> mask[c] == 0
    modifies mask, aoMask
    ensures facesFound == facesFound0 + Total(f)
    ensures mask[..] == old(mask[..])[..n0] + t + old(mask[..])[n0 + p.Len()..]
    ensures aoMask[..] == old(aoMask[..])[..n0] + ta + old(aoMask[..])[n0 + p.Len()..]
  {
    var len := p.Len();
    ghost var M0, AR := mask[..], aoMask[..];
    facesFound := facesFound0;
    var j, n, dA, dB := 0, n0, dA0, dB0;
    CellsStart(M0, AR, t, ta, n0);
    while j < len
      invariant 0 <= j <= len && n == n0 + j
      invariant dA == dA0 + RowStart(jstrideA, j) && dB == dB0 + RowStart(jstrideB, j)
      invariant facesFound == facesFound0 + Total(f[..j])
      // compared with true so that the invariant is checked as one fact
      invariant CellsDone(mask[..], aoMask[..], M0, AR, t, ta, n0, j) == true
    {
      facesFound := MaskCellAt(reg, p, j, k, n, dA, dB, facesFound, mask, aoMask, doAO, isSolid, skipRevAo,
                               dA0, jstrideA, dB0, jstrideB, t, ta, f, n0, M0, AR, facesFound0);
      j, n, dA, dB := j + 1, n + 1, dA + jstrideA, dB + jstrideB;
    }
    CellsEnd(mask[..], aoMask[..], M0, AR, t, ta, n0);
    assert f[..len] == f;
  }

  /** One turn of the inner loop: cell j of the row gets its targets. */
  method MaskCellAt(reg: Registry, p: LayerPair, j: int, k: int, n: int, dA: int, dB: int, facesFound0: int,
                    mask: array<int>, aoMask: array<int>, doAO: bool,
                    isSolid: (int, int, int) -> bool, skipRevAo: bool,
                    ghost dA0: int, ghost sA: int, ghost dB0: int, ghost sB: int,
                    ghost t: seq<int>, ghost ta: seq<int>, ghost f: seq<int>,
                    ghost n0: int, ghost M0: seq<int>, ghost AR: seq<int>, ghost base: int)
    returns (facesFound: int)
    requires reg.Valid() && IsAxis(p.d) && 0 <= j < |t| && 0 <= n0 && n == n0 + j
    requires n0 + |t| <= |M0| && n0 + |t| <= |AR|
    requires RowTargets(reg, p, doAO, isSolid, skipRevAo, k, dA0, sA, dB0, sB, AR[n0..n0 + |t|], t, ta, f)
    requires dA == dA0 + RowStart(sA, j) && dB == dB0 + RowStart(sB, j)
    requires mask.Length == |M0| && aoMask.Length == |AR| && mask != aoMask
    requires M0[n] == 0
    requires CellsDone(mask[..], aoMask[..], M0, AR, t, ta, n0, j)
    requires facesFound0 == base + Total(f[..j])
    modifies mask, aoMask
    ensures facesFound == base + Total(f[..j + 1])
    ensures CellsDone(mask[..], aoMask[..], M0, AR, t, ta, n0, j + 1)
  {
    ghost var a0 := AR[n0..n0 + |t|];
    assert CellTargets(reg, p, doAO, isSolid, skipRevAo, k, dA0, sA, dB0, sB, a0, t, ta, f, j);
    CellsStep(mask[..], aoMask[..], M0, AR, t, ta, n0, j);
    var found := MaskCell(reg, p, j, k, n, dA, dB, mask, aoMask, doAO, isSolid, skipRevAo,
                          dA0, sA, dB0, sB, a0, t, ta, f);
    TotalSnoc(f, j);
    facesFound := facesFound0 + if found then 1 else 0;
  }

  /** Cells n0 .. n0 + j - 1 of the mask and the AO mask hold the first j
      targets of the row, every other cell its value M0 or AR from before. */
  ghost predicate CellsDone(m: seq<int>, ao: seq<int>, M0: seq<int>, AR: seq<int>, t: seq<int>, ta: seq<int>,
                            n0: int, j: int)
  {
    && 0 <= n0 && 0 <= j <= |t| && |ta| == |t| && n0 + |t| <= |M0| && n0 + |t| <= |AR|
    && m == M0[..n0] + t[..j] + M0[n0 + j..]
    && ao == AR[..n0] + ta[..j] + AR[n0 + j..]
  }

  lemma CellsStart(M0: seq<int>, AR: seq<int>, t: seq<int>, ta: seq<int>, n0: int)
    requires 0 <= n0 && |ta| == |t| && n0 + |t| <= |M0| && n0 + |t| <= |AR|
    ensures CellsDone(M0, AR, M0, AR, t, ta, n0, 0)
  {
    assert M0 == M0[..n0] + t[..0] + M0[n0 + 0..];
    assert AR == AR[..n0] + ta[..0] + AR[n0 + 0..];
  }

  /** Before cell j is written it holds its old value; writing its targets
      gives the state after j + 1 cells. */
  lemma CellsStep(m: seq<int>, ao: seq<int>, M0: seq<int>, AR: seq<int>, t: seq<int>, ta: seq<int>,
                  n0: int, j: int)
    requires CellsDone(m, ao, M0, AR, t, ta, n0, j) && j < |t|
    ensures n0 + j < |m| && m[n0 + j] == M0[n0 + j]
    ensures n0 + j < |ao| && ao[n0 + j] == AR[n0 + j] == AR[n0..n0 + |t|][j]
    ensures CellsDone(m[n0 + j := t[j]], ao[n0 + j := ta[j]], M0, AR, t, ta, n0, j + 1)
  {
    SpliceStep(M0, t, n0, j, m, m[n0 + j := t[j]]);
    SpliceStep(AR, ta, n0, j, ao, ao[n0 + j := ta[j]]);
  }

  lemma CellsEnd(m: seq<int>, ao: seq<int>, M0: seq<int>, AR: seq<int>, t: seq<int>, ta: seq<int>, n0: int)
    requires CellsDone(m, ao, M0, AR, t, ta, n0, |t|)
    ensures m == M0[..n0] + t + M0[n0 + |t|..] && ao == AR[..n0] + ta + AR[n0 + |t|..]
  {
    assert t[..|t|] == t && ta[..|ta|] == ta;
  }


  /** What row k of the tables is, as the outer loop needs it: a skipped
      row is all zero with no face flag and keeps its old AO values; any
      other row has its cell targets in terms of the flat indices where row k
      of both layers starts. */
  ghost predicate RowReady(reg: Registry, p: LayerPair, w: Walk, doAO: bool, isSolid: (int, int, int) -> bool,
                           skipRevAo: bool, T: seq<seq<int>>, TA: seq<seq<int>>, F: seq<seq<int>>,
                           A0: seq<int>, k: int)
    requires reg.Valid() && IsAxis(p.d)
  {
    var len, n := p.Len(), RowStart(p.Len(), k);
    && 0 <= k < |T| && k < |TA| && k < |F| && 0 <= n && n + len <= |A0|
    && |T[k]| == len && |TA[k]| == len && |F[k]| == len
    && if p.Skipped(k) then
         && (forall j :: 0 <= j < len ==> T[k][j] == 0)
         && TA[k] == A0[n..n + len] && Total(F[k]) == 0
       else
         RowTargets(reg, p, doAO, isSolid, skipRevAo, k, w.startA + RowStart(w.kA, k), w.jA,
                    w.startB + RowStart(w.kB, k), w.jB, A0[n..n + len], T[k], TA[k], F[k])
  }

  /** Every row of the target tables is ready for the loops. */
  lemma AllRowsReady(reg: Registry, p: LayerPair, doAO: bool, isSolid: (int, int, int) -> bool,
                     skipRevAo: bool, A0: seq<int>, T: seq<seq<int>>, TA: seq<seq<int>>, F: seq<seq<int>>)
    requires p.Valid(reg) && Targets(reg, p, doAO, isSolid, skipRevAo, A0, T, TA, F)
    requires RowStart(p.Len(), p.Len()) <= |A0|
    ensures forall k :: 0 <= k < p.Len() ==> RowReady(reg, p, WalkOf(p), doAO, isSolid, skipRevAo, T, TA, F, A0, k)
  {
    forall k | 0 <= k < p.Len()
      ensures RowReady(reg, p, WalkOf(p), doAO, isSolid, skipRevAo, T, TA, F, A0, k)
    {
      RowReadyAt(reg, p, doAO, isSolid, skipRevAo, A0, T, TA, F, k);
    }
  }

  lemma RowReadyAt(reg: Registry, p: LayerPair, doAO: bool, isSolid: (int, int, int) -> bool,
                   skipRevAo: bool, A0: seq<int>, T: seq<seq<int>>, TA: seq<seq<int>>, F: seq<seq<int>>, k: int)
    requires p.Valid(reg) && Targets(reg, p, doAO, isSolid, skipRevAo, A0, T, TA, F)
    requires RowStart(p.Len(), p.Len()) <= |A0| && 0 <= k < p.Len()
    ensures RowReady(reg, p, WalkOf(p), doAO, isSolid, skipRevAo, T, TA, F, A0, k)
  {
    RowsBelow(p.Len(), p.Len(), k, 1);
    if p.Skipped(k) {
      SkippedReady(reg, p, doAO, isSolid, skipRevAo, A0, T, TA, F, k);
    } else {
      ActiveReady(reg, p, doAO, isSolid, skipRevAo, A0, T, TA, F, k);
    }
  }

  /** A skipped row of the tables: no face, so zero mask targets, no flags
      and the old AO values. */
  lemma SkippedReady(reg: Registry, p: LayerPair, doAO: bool, isSolid: (int, int, int) -> bool,
                     skipRevAo: bool, A0: seq<int>, T: seq<seq<int>>, TA: seq<seq<int>>, F: seq<seq<int>>, k: int)
    requires p.Valid(reg) && Targets(reg, p, doAO, isSolid, skipRevAo, A0, T, TA, F)
    requires 0 <= k < p.Len() && p.Skipped(k) && RowStart(p.Len(), k) + p.Len() <= |A0|
    ensures RowReady(reg, p, WalkOf(p), doAO, isSolid, skipRevAo, T, TA, F, A0, k)
  {
    var n := RowStart(p.Len(), k);
    var a0 := A0[n..n + p.Len()];
    forall j | 0 <= j < p.Len()
      ensures T[k][j] == 0 && TA[k][j] == a0[j] && F[k][j] == 0
    {
      assert Entry(T, j, k) == T[k][j] && Entry(TA, j, k) == TA[k][j] && Entry(F, j, k) == F[k][j];
    }
    TotalZero(F[k]);
  }

  /** A row that is not skipped: its targets, with row k of each layer
      starting k strides along the third view axis after row 0. */
  lemma ActiveReady(reg: Registry, p: LayerPair, doAO: bool, isSolid: (int, int, int) -> bool,
                    skipRevAo: bool, A0: seq<int>, T: seq<seq<int>>, TA: seq<seq<int>>, F: seq<seq<int>>, k: int)
    requires p.Valid(reg) && Targets(reg, p, doAO, isSolid, skipRevAo, A0, T, TA, F)
    requires 0 <= k < p.Len() && !p.Skipped(k) && RowStart(p.Len(), k) + p.Len() <= |A0|
    ensures RowReady(reg, p, WalkOf(p), doAO, isSolid, skipRevAo, T, TA, F, A0, k)
  {
    RowSetup(reg, p, T, TA, F, A0, doAO, isSolid, skipRevAo, k, RowStart(p.Len(), k));
    ColIndex(p.arrA, p.iA, k);
    ColIndex(p.arrB, p.iB, k);
  }

  /** A mask whose cells n .. n + |t| - 1 already hold t is t spliced in. */
  lemma SpliceSame(m: seq<int>, t: seq<int>, n: int)
    requires 0 <= n && n + |t| <= |m| && m[n..n + |t|] == t
    ensures m == m[..n] + t + m[n + |t|..]
  {
    assert m == m[..n] + m[n..n + |t|] + m[n + |t|..];
  }

  /** ... as it does when both are zero there. */
  lemma SpliceZero(m: seq<int>, t: seq<int>, n: int)
    requires 0 <= n && n + |t| <= |m|
    requires forall c :: n <= c < n + |t| ==> m[c] == 0
    requires forall j :: 0 <= j < |t| ==> t[j] == 0
    ensures m == m[..n] + t + m[n + |t|..]
  {
    assert m[n..n + |t|] == t;
    SpliceSame(m, t, n);
  }

  /** The mask after `done` holds a row's cells spliced in. */
  lemma Extend(done: seq<int>, X: seq<int>, n: int, t: seq<int>, pre: seq<int>, m: seq<int>)
    requires |done| == n && 0 <= n && n + |t| <= |X| && pre == done + X[n..]
    requires m == pre[..n] + t + pre[n + |t|..]
    ensures m == done + t + X[n + |t|..]
  {
    assert pre[..n] == done;
    assert pre[n + |t|..] == X[n + |t|..];
  }

  /** One pass of the outer loop: row k is skipped when wholeLayerVoxel
      says both layers hold one voxel all along it, and filled cell by cell
      otherwise. The rows before k, `done` and `doneAo`, stay as they are. */
  method MaskRow(reg: Registry, p: LayerPair, w: Walk, k: int, n: int, dA: int, dB: int, facesFound0: int,
                 mask: array<int>, aoMask: array<int>, doAO: bool,
                 isSolid: (int, int, int) -> bool, skipRevAo: bool,
                 ghost T: seq<seq<int>>, ghost TA: seq<seq<int>>, ghost F: seq<seq<int>>,
                 ghost A0: seq<int>, ghost M0: seq<int>, ghost done: seq<int>, ghost doneAo: seq<int>)
    returns (facesFound: int)
    requires reg.Valid() && IsAxis(p.d) && RowReady(reg, p, w, doAO, isSolid, skipRevAo, T, TA, F, A0, k)
    requires n == RowStart(p.Len(), k) && |done| == n && |doneAo| == n
    requires dA == w.startA + RowStart(w.kA, k) && dB == w.startB + RowStart(w.kB, k)
    requires mask.Length == |M0| && aoMask.Length == |A0| && mask != aoMask && n + p.Len() <= |M0|
    requires forall c :: n <= c < n + p.Len() ==> M0[c] == 0
    requires mask[..] == done + M0[n..] && aoMask[..] == doneAo + A0[n..]
    modifies mask, aoMask
    ensures facesFound == facesFound0 + Total(F[k])
    ensures mask[..] == done + T[k] + M0[n + p.Len()..]
    ensures aoMask[..] == doneAo + TA[k] + A0[n + p.Len()..]
  {
    var len := p.Len();
    ghost var pre, preAo := mask[..], aoMask[..];
    assert pre[n..n + len] == M0[n..n + len];
    assert preAo[n..n + len] == A0[n..n + len];
    if p.Skipped(k) {
      // the row is skipped: both layers hold the same voxel all along it
      SpliceZero(pre, T[k], n);
      SpliceSame(preAo, TA[k], n);
      facesFound := facesFound0;
    } else {
      facesFound := MaskCells(reg, p, k, n, dA, w.jA, dB, w.jB, facesFound0, mask, aoMask, doAO, isSolid,
                              skipRevAo, T[k], TA[k], F[k]);
    }
    Extend(done, M0, n, T[k], pre, mask[..]);
    Extend(doneAo, A0, n, TA[k], preAo, aoMask[..]);
  }

  /** constructMeshMask: fill the mask cells of the plane between layer iA of
      A and layer iB of B, one row k at a time (cell (j, k) is mask index
      k * len + j), and return the number of cells written. The mask must
      come in all zero, as the merge step leaves it: cells without a face
      are not written. AO cells without a face keep their old value. */
  method ConstructMeshMask(reg: Registry, p: LayerPair, mask: array<int>, aoMask: array<int>, doAO: bool,
                           isSolid: (int, int, int) -> bool, skipRevAo: bool)
    returns (facesFound: int)
    requires p.Valid(reg)
    requires p.Len() * p.Len() <= mask.Length && p.Len() * p.Len() <= aoMask.Length && mask != aoMask
    requires forall c :: 0 <= c < p.Len() * p.Len() ==> mask[c] == 0
    modifies mask, aoMask
    ensures facesFound == p.FacesInRows(reg, p.Len())
    ensures Count(mask[..p.Len() * p.Len()]) <= facesFound
    ensures forall j, k :: 0 <= j < p.Len() && 0 <= k < p.Len() ==>
      At(mask[..], p.Len(), j, k) == MaskValue(p.CellFace(reg, j, k))
    ensures forall j, k :: 0 <= j < p.Len() && 0 <= k < p.Len() ==>
      At(aoMask[..], p.Len(), j, k) ==
        if doAO && p.CellFace(reg, j, k) != NoFace
        then p.CellAO(isSolid, skipRevAo, j, k, p.CellFace(reg, j, k))
        else At(old(aoMask[..]), p.Len(), j, k)
    ensures mask[p.Len() * p.Len()..] == old(mask[p.Len() * p.Len()..])
    ensures aoMask[p.Len() * p.Len()..] == old(aoMask[p.Len() * p.Len()..])
  {
    var len := p.Len();
    ghost var L := RowStart(len, len);
    RowStartMul(len, len);
    ghost var M0, A0 := mask[..], aoMask[..];
    ghost var T, TA, F := MakeTargets(reg, p, doAO, isSolid, skipRevAo, A0);
    AllRowsReady(reg, p, doAO, isSolid, skipRevAo, A0, T, TA, F);
    var w := WalkOf(p);
    facesFound := MaskRows(reg, p, w, mask, aoMask, doAO, isSolid, skipRevAo, T, TA, F, A0, M0);
    RowsLength(T, len, len);
    RowsLength(TA, len, len);
    assert mask[..L] == Rows(T, len);
    RowsCountBound(reg, p, doAO, isSolid, skipRevAo, A0, T, TA, F, len);
    MaskMeaning(reg, p, T, TA, F, A0, doAO, isSolid, skipRevAo, mask[..], aoMask[..], M0[L..], A0[L..]);
    CountMeaning(reg, p, F, len);
  }

  /** The loops of constructMeshMask (terrainMesher.js 773-838): row k after
      row k, the flat indices of both views starting each row one k stride
      further, and the mask index n running through the rows in order. */
  method MaskRows(reg: Registry, p: LayerPair, w: Walk, mask: array<int>, aoMask: array<int>, doAO: bool,
                  isSolid: (int, int, int) -> bool, skipRevAo: bool,
                  ghost T: seq<seq<int>>, ghost TA: seq<seq<int>>, ghost F: seq<seq<int>>,
                  ghost A0: seq<int>, ghost M0: seq<int>)
    returns (facesFound: int)
    requires reg.Valid() && IsAxis(p.d) && 0 <= p.Len()
    requires |T| == p.Len() && |TA| == p.Len() && |F| == p.Len()
    requires forall k :: 0 <= k < p.Len() ==> RowReady(reg, p, w, doAO, isSolid, skipRevAo, T, TA, F, A0, k)
    requires RowStart(p.Len(), p.Len()) <= mask.Length && RowStart(p.Len(), p.Len()) <= aoMask.Length
    requires mask != aoMask && mask[..] == M0 && aoMask[..] == A0
    requires forall c :: 0 <= c < RowStart(p.Len(), p.Len()) ==> M0[c] == 0
    modifies mask, aoMask
    ensures facesFound == RowsTotal(F, p.Len())
    ensures mask[..] == Rows(T, p.Len()) + M0[RowStart(p.Len(), p.Len())..]
    ensures aoMask[..] == Rows(TA, p.Len()) + A0[RowStart(p.Len(), p.Len())..]
  {
    var len := p.Len();
    ghost var L := RowStart(len, len);
    var n := 0;
    var indexA, indexB := w.startA, w.startB;
    facesFound := 0;
    ghost var done: seq<int>, doneAo: seq<int> := [], [];
    assert mask[..] == done + M0[n..] && aoMask[..] == doneAo + A0[n..];
    var k := 0;
    while k < len
      invariant 0 <= k <= len && n == RowStart(len, k) && n <= L
      invariant indexA == w.startA + RowStart(w.kA, k) && indexB == w.startB + RowStart(w.kB, k)
      invariant facesFound == RowsTotal(F, k)
      invariant done == Rows(T, k) && doneAo == Rows(TA, k) && |done| == n && |doneAo| == n
      invariant mask[..] == done + M0[n..]
      invariant aoMask[..] == doneAo + A0[n..]
    {
      facesFound, done, doneAo := MaskRowStep(reg, p, w, k, n, indexA, indexB, facesFound, mask, aoMask, doAO,
                                              isSolid, skipRevAo, T, TA, F, A0, M0, done, doneAo);
      indexA, indexB := indexA + w.kA, indexB + w.kB;
      k, n := k + 1, n + len;
    }
  }

  /** One turn of the loop over k: row k is written after the rows before it. */
  method MaskRowStep(reg: Registry, p: LayerPair, w: Walk, k: int, n: int, dA: int, dB: int, facesFound0: int,
                     mask: array<int>, aoMask: array<int>, doAO: bool,
                     isSolid: (int, int, int) -> bool, skipRevAo: bool,
                     ghost T: seq<seq<int>>, ghost TA: seq<seq<int>>, ghost F: seq<seq<int>>,
                     ghost A0: seq<int>, ghost M0: seq<int>, ghost done0: seq<int>, ghost doneAo0: seq<int>)
    returns (facesFound: int, ghost done: seq<int>, ghost doneAo: seq<int>)
    requires reg.Valid() && IsAxis(p.d) && 0 <= k < p.Len()
    requires |T| == p.Len() && |TA| == p.Len() && |F| == p.Len()
    requires RowReady(reg, p, w, doAO, isSolid, skipRevAo, T, TA, F, A0, k)
    requires mask.Length == |M0| && aoMask.Length == |A0| && mask != aoMask
    requires RowStart(p.Len(), p.Len()) <= |M0| && RowStart(p.Len(), p.Len()) <= |A0|
    requires forall c :: 0 <= c < RowStart(p.Len(), p.Len()) ==> M0[c] == 0
    requires n == RowStart(p.Len(), k) && n <= RowStart(p.Len(), p.Len())
    requires dA == w.startA + RowStart(w.kA, k) && dB == w.startB + RowStart(w.kB, k)
    requires facesFound0 == RowsTotal(F, k)
    requires done0 == Rows(T, k) && doneAo0 == Rows(TA, k) && |done0| == n && |doneAo0| == n
    requires mask[..] == done0 + M0[n..] && aoMask[..] == doneAo0 + A0[n..]
    modifies mask, aoMask
    ensures facesFound == RowsTotal(F, k + 1)
    ensures n + p.Len() <= RowStart(p.Len(), p.Len())
    ensures done == Rows(T, k + 1) && doneAo == Rows(TA, k + 1)
    ensures |done| == n + p.Len() && |doneAo| == n + p.Len()
    ensures mask[..] == done + M0[n + p.Len()..] && aoMask[..] == doneAo + A0[n + p.Len()..]
  {
    RowsBelow(p.Len(), p.Len(), k, 1);
    facesFound := MaskRow(reg, p, w, k, n, dA, dB, facesFound0, mask, aoMask, doAO, isSolid, skipRevAo,
                          T, TA, F, A0, M0, done0, doneAo0);
    done, doneAo := done0 + T[k], doneAo0 + TA[k];
  }

  /** The tables laid end to end, read back in terms of the culling rules. */
  lemma MaskMeaning(reg: Registry, p: LayerPair, T: seq<seq<int>>, TA: seq<seq<int>>, F: seq<seq<int>>, A0: seq<int>,
                    doAO: bool, isSolid: (int, int, int) -> bool, skipRevAo: bool, m: seq<int>, ao: seq<int>,
                    X: seq<int>, XA: seq<int>)
    requires p.Valid(reg)
    requires Targets(reg, p, doAO, isSolid, skipRevAo, A0, T, TA, F)
    requires m == Rows(T, p.Len()) + X && ao == Rows(TA, p.Len()) + XA
    ensures forall j, k :: 0 <= j < p.Len() && 0 <= k < p.Len() ==>
      At(m, p.Len(), j, k) == MaskValue(p.CellFace(reg, j, k))
    ensures forall j, k :: 0 <= j < p.Len() && 0 <= k < p.Len() ==>
      At(ao, p.Len(), j, k) ==
        if doAO && p.CellFace(reg, j, k) != NoFace
        then p.CellAO(isSolid, skipRevAo, j, k, p.CellFace(reg, j, k))
        else At(A0, p.Len(), j, k)
  {
    forall j, k | 0 <= j < p.Len() && 0 <= k < p.Len()
      ensures At(m, p.Len(), j, k) == Entry(T, j, k) && At(ao, p.Len(), j, k) == Entry(TA, j, k)
    {
      RowsAt(T, p.Len(), p.Len(), j, k);
      RowsAt(TA, p.Len(), p.Len(), j, k);
    }
  }

  /** The rows' face flags add up to the number of face cells. */
  lemma {:induction false} CountMeaning(reg: Registry, p: LayerPair, F: seq<seq<int>>, k: int)
    requires p.Valid(reg) && Flags(reg, p, F) && 0 <= k <= p.Len()
    ensures RowsTotal(F, k) == p.FacesInRows(reg, k)
    decreases k
  {
    if k > 0 {
      var row := F[k - 1];
      assert |row| == p.Len();
      CountMeaning(reg, p, F, k - 1);
      RowCountMeaning(reg, p, F, k - 1, p.Len());
      assert row[..|row|] == row;
    }
  }

  lemma {:induction false} RowCountMeaning(reg: Registry, p: LayerPair, F: seq<seq<int>>, k: int, j: int)
    requires p.Valid(reg) && Flags(reg, p, F)
    requires 0 <= k < p.Len() && 0 <= j <= p.Len()
    ensures Total(F[k][..j]) == p.RowFaces(reg, k, j)
    decreases j
  {
    if j > 0 {
      RowCountMeaning(reg, p, F, k, j - 1);
      TotalSnoc(F[k], j - 1);
      assert Entry(F, j - 1, k) == F[k][j - 1];
    }
  }
}
