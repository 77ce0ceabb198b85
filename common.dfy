/** Shared vocabulary of the meshing core: optional values, JavaScript array
    writes, the row-major layout of a chunk's voxel array, the 3x3x3 grid of
    neighbour slots, and the axis permutation used by the per-axis sweep. */
module Common {

  datatype Option<T> = None | Some(value: T)

  /** Writing element `n` of a JavaScript array: an existing element is
      overwritten, writing one past the end appends. */
  function SetAt<T>(s: seq<T>, n: nat, x: T): (r: seq<T>)
    requires n <= |s|
    ensures |r| == if n < |s| then |s| else |s| + 1
    ensures r[n] == x
    ensures forall i :: 0 <= i < |s| && i != n ==> r[i] == s[i]
  {
    if n < |s| then s[n := x] else s + [x]
  }

  /** Flat index of voxel (x, y, z) in a chunk array of side `cs`: the
      row-major layout of an ndarray of shape [cs, cs, cs], strides cs*cs, cs, 1. */
  function Index(cs: int, x: int, y: int, z: int): int
  {
    x * (cs * cs) + y * cs + z
  }

  predicate InChunk(cs: int, x: int, y: int, z: int)
  {
    0 <= x < cs && 0 <= y < cs && 0 <= z < cs
  }

  lemma MulMono(a: int, b: int, c: int)
    requires a <= b && 0 <= c
    ensures a * c <= b * c
  {
  }

  lemma IndexInRange(cs: int, x: int, y: int, z: int)
    requires InChunk(cs, x, y, z)
    ensures 0 <= Index(cs, x, y, z) < cs * cs * cs
  {
    var sq := cs * cs;
    MulMono(x, cs - 1, sq);
    MulMono(y, cs - 1, cs);
    assert (cs - 1) * sq == cs * sq - sq;
    assert (cs - 1) * cs == sq - cs;
    assert cs * sq == cs * cs * cs;
    assert 0 <= x * sq && 0 <= y * cs;
  }

  /** Offsets of a neighbour chunk, each in -1..1. */
  predicate IsOffset(a: int)
  {
    -1 <= a <= 1
  }

  /** Slot of neighbour (a, b, c) in the flat data of a 3x3x3 ndarray
      viewed through `.lo(1, 1, 1)`. */
  function SlotIndex(a: int, b: int, c: int): int
  {
    (a + 1) * 9 + (b + 1) * 3 + (c + 1)
  }

  /** The centre chunk's own slot. */
  const Centre := 13

  lemma SlotIndexRange(a: int, b: int, c: int)
    requires IsOffset(a) && IsOffset(b) && IsOffset(c)
    ensures 0 <= SlotIndex(a, b, c) < 27
    ensures SlotIndex(a, b, c) == Centre <==> a == 0 && b == 0 && c == 0
  {
  }

  /** Points and vectors in chunk coordinates. */
  datatype Vec3 = Vec3(x: int, y: int, z: int)
  {
    function Get(axis: int): int
      requires 0 <= axis < 3
    {
      if axis == 0 then x else if axis == 1 then y else z
    }

    /** Writing coordinate `axis`; an index past 2 writes z, as the last branch does. */
    function Set(axis: int, val: int): (r: Vec3)
      ensures 0 <= axis < 3 ==> r.Get(axis) == val
      ensures forall a :: 0 <= a < 3 && a != axis && 0 <= axis < 3 ==> r.Get(a) == Get(a)
    {
      if axis == 0 then Vec3(val, y, z) else if axis == 1 then Vec3(x, val, z) else Vec3(x, y, val)
    }
  }

  /** The in-plane axes of the sweep along axis `d` (terrainMesher.js 606-607). */
  function UAxis(d: int): int
  {
    if d == 2 then 0 else 2
  }

  function VAxis(d: int): int
  {
    if d == 1 then 0 else 1
  }

  predicate IsAxis(d: int)
  {
    0 <= d < 3
  }

  /** Three distinct axes. */
  predicate IsPermutation(d: int, u: int, v: int)
  {
    IsAxis(d) && IsAxis(u) && IsAxis(v) && d != u && d != v && u != v
  }

  lemma SweepAxesArePermutation(d: int)
    requires IsAxis(d)
    ensures IsPermutation(d, UAxis(d), VAxis(d))
  {
  }

  /** The point whose coordinate on axis `d` is `a`, on `u` is `b` and on `v`
      is `c`: what `x[d] = a; x[u] = b; x[v] = c` builds, and what reading an
      ndarray through `.transpose(d, u, v)` at (a, b, c) addresses. */
  function Place(d: int, u: int, v: int, a: int, b: int, c: int): (p: Vec3)
    ensures IsPermutation(d, u, v) ==> p.Get(d) == a && p.Get(u) == b && p.Get(v) == c
  {
    Vec3(0, 0, 0).Set(d, a).Set(u, b).Set(v, c)
  }

  /** Transposed coordinates of the sweep along `d` back to chunk
      coordinates: coordinate `d` is a, UAxis(d) is b and VAxis(d) is c. */
  function Untranspose(d: int, a: int, b: int, c: int): (p: Vec3)
  {
    if d == 0 then Vec3(a, c, b) else if d == 1 then Vec3(c, a, b) else Vec3(b, c, a)
  }

  /** Untranspose places the coordinates on the sweep's axes, as Place does. */
  lemma UntransposeIsPlace(d: int, a: int, b: int, c: int)
    requires IsAxis(d)
    ensures Untranspose(d, a, b, c) == Place(d, UAxis(d), VAxis(d), a, b, c)
    ensures var p := Untranspose(d, a, b, c);
      p.Get(d) == a && p.Get(UAxis(d)) == b && p.Get(VAxis(d)) == c
  {
    SweepAxesArePermutation(d);
    var p, q := Untranspose(d, a, b, c), Place(d, UAxis(d), VAxis(d), a, b, c);
    assert p.Get(0) == q.Get(0) && p.Get(1) == q.Get(1) && p.Get(2) == q.Get(2);
  }

  lemma UntransposeInChunk(d: int, cs: int, a: int, b: int, c: int)
    ensures var p := Untranspose(d, a, b, c);
      InChunk(cs, p.x, p.y, p.z) <==> 0 <= a < cs && 0 <= b < cs && 0 <= c < cs
  {
  }
}
