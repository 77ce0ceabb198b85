/** Read-only views of a chunk's voxel IDs as the mesher addresses them: the
    flat row-major data behind an ndarray, read through `.transpose(d, u, v)`
    with the sweep axes of `d` and, for the previous neighbour, `.lo(cs, 0, 0)`
    (terrainMesher.js 610-633). The ndarray library itself is not part of
    this model; these index formulas stand for it. */
module Views {
  import opened Common
  import opened Grid

  /** Voxel ID at chunk coordinates (x, y, z) of flat data of side cs:
      `voxels.get(x, y, z)`. */
  function Voxel(data: seq<int>, cs: int, x: int, y: int, z: int): int
    requires |data| == cs * cs * cs && InChunk(cs, x, y, z)
  {
    IndexInRange(cs, x, y, z);
    data[Index(cs, x, y, z)]
  }

  /** Distance in the flat data between neighbouring voxels along `axis`. */
  function Stride(cs: int, axis: int): int
  {
    if axis == 0 then cs * cs else if axis == 1 then cs else 1
  }

  /** One step along an axis moves the flat index by that axis's stride. */
  lemma IndexStep(cs: int, p: Vec3, axis: int, val: int)
    requires IsAxis(axis) && val == p.Get(axis) + 1
    ensures var q := p.Set(axis, val);
      Index(cs, q.x, q.y, q.z) == Index(cs, p.x, p.y, p.z) + Stride(cs, axis)
  {
    var q := p.Set(axis, val);
    if axis == 0 {
      MulDistrib(p.x, cs * cs);
    } else if axis == 1 {
      MulDistrib(p.y, cs);
    }
  }

  lemma MulDistrib(a: int, c: int)
    ensures (a + 1) * c == a * c + c
  {
  }

  /** `voxels.transpose(axis, UAxis(axis), VAxis(axis)).lo(shift, 0, 0)`. */
  datatype VoxView = VoxView(data: seq<int>, cs: int, axis: int, shift: int)
  {
    /** Chunk coordinates that view coordinates (i, j, k) address. */
    function Point(i: int, j: int, k: int): Vec3
    {
      Untranspose(axis, i + shift, j, k)
    }

    /** (i, j, k) addresses a voxel of the chunk. */
    predicate Readable(i: int, j: int, k: int)
    {
      && IsAxis(axis) && |data| == cs * cs * cs
      && 0 <= i + shift < cs && 0 <= j < cs && 0 <= k < cs
    }

    /** `view.get(i, j, k)`. */
    function Get(i: int, j: int, k: int): int
      requires Readable(i, j, k)
    {
      var p := Point(i, j, k);
      UntransposeInChunk(axis, cs, i + shift, j, k);
      Voxel(data, cs, p.x, p.y, p.z)
    }

    /** `view.index(i, j, k)`: position of (i, j, k) in the flat data. */
    function FlatIndex(i: int, j: int, k: int): int
    {
      var p := Point(i, j, k);
      Index(cs, p.x, p.y, p.z)
    }
  }

  /** A readable voxel sits at its flat index: `view.data[view.index(i, j, k)]`
      is `view.get(i, j, k)`. */
  lemma ReadAt(view: VoxView, i: int, j: int, k: int)
    requires view.Readable(i, j, k)
    ensures 0 <= view.FlatIndex(i, j, k) < |view.data|
    ensures view.data[view.FlatIndex(i, j, k)] == view.Get(i, j, k)
  {
    var p := view.Point(i, j, k);
    UntransposeInChunk(view.axis, view.cs, i + view.shift, j, k);
    IndexInRange(view.cs, p.x, p.y, p.z);
  }

  /** Along a row, cell j sits j strides after cell 0 (RowStart(s, j) is
      j * s written as repeated addition). */
  lemma {:induction false} RowIndex(view: VoxView, i: int, j: int, k: int)
    requires IsAxis(view.axis) && 0 <= j
    ensures view.FlatIndex(i, j, k) == view.FlatIndex(i, 0, k) + RowStart(Stride(view.cs, UAxis(view.axis)), j)
  {
    if j > 0 {
      RowIndex(view, i, j - 1, k);
      ViewSteps(view, i, j - 1, k);
    }
  }

  /** Row k starts k strides along the third view axis after row 0. */
  lemma {:induction false} ColIndex(view: VoxView, i: int, k: int)
    requires IsAxis(view.axis) && 0 <= k
    ensures view.FlatIndex(i, 0, k) == view.FlatIndex(i, 0, 0) + RowStart(Stride(view.cs, VAxis(view.axis)), k)
  {
    if k > 0 {
      ColIndex(view, i, k - 1);
      ViewSteps(view, i, 0, k - 1);
    }
  }

  /** The second and third view axes advance the flat index by the strides of
      the chunk axes they stand for (`view.stride[1]`, `view.stride[2]`). */
  lemma ViewSteps(view: VoxView, i: int, j: int, k: int)
    requires IsAxis(view.axis)
    ensures view.FlatIndex(i, j + 1, k) == view.FlatIndex(i, j, k) + Stride(view.cs, UAxis(view.axis))
    ensures view.FlatIndex(i, j, k + 1) == view.FlatIndex(i, j, k) + Stride(view.cs, VAxis(view.axis))
  {
    var cs := view.cs;
    if view.axis == 0 {
      MulDistrib(k, cs);
    } else if view.axis == 1 {
      MulDistrib(k, cs * cs);
    } else {
      MulDistrib(j, cs * cs);
      MulDistrib(k, cs);
    }
  }
}
