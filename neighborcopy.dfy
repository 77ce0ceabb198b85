/** Copying what the mesher needs of a chunk and its 26 neighbours
    (copyNeighborChunksForMesh, terrainMesher.js 338-584). Of each present
    neighbour only the voxels touching the chunk are copied into a pooled
    buffer: one voxel of a corner neighbour, one line of an edge neighbour,
    one plane of a face neighbour. The chunk itself is copied whole, and the
    buffers are collected in slot order for transfer to the worker. */
module NeighborCopy {
  import opened Common
  import opened Grid
  import opened Views
  import opened Pools

  // The tables of terrainMesher.js 339-461, h being chunkSize - 1. The
  // source stores them flat and reads them three (or six) numbers at a time;
  // here an entry is a triple (or a pair of triples).

  /** Offsets of the 8 neighbours sharing a corner with the chunk. */
  const CornerChunks: seq<Vec3> := [
    Vec3(1, 1, 1), Vec3(1, 1, -1), Vec3(1, -1, 1), Vec3(-1, 1, 1),
    Vec3(-1, -1, 1), Vec3(-1, 1, -1), Vec3(1, -1, -1), Vec3(-1, -1, -1)]

  /** The one voxel of each corner neighbour that touches the chunk. */
  function CornerCoords(h: int): seq<Vec3>
  {
    [Vec3(0, 0, 0), Vec3(0, 0, h), Vec3(0, h, 0), Vec3(h, 0, 0),
     Vec3(h, h, 0), Vec3(h, 0, h), Vec3(0, h, h), Vec3(h, h, h)]
  }

  /** Offsets of the 12 neighbours sharing an edge with the chunk. */
  const EdgeChunks: seq<Vec3> := [
    Vec3(0, 1, 1), Vec3(0, 1, -1), Vec3(1, 1, 0), Vec3(-1, 1, 0),
    Vec3(1, 0, 1), Vec3(-1, 0, 1), Vec3(1, 0, -1), Vec3(-1, 0, -1),
    Vec3(0, -1, 1), Vec3(0, -1, -1), Vec3(1, -1, 0), Vec3(-1, -1, 0)]

  /** Per edge neighbour, the first voxel of the touching line and the one
      after it, whose index difference is the line's stride. */
  function SubsequentEdgeCoords(h: int): seq<(Vec3, Vec3)>
  {
    [(Vec3(0, 0, 0), Vec3(1, 0, 0)),
     (Vec3(0, 0, h), Vec3(1, 0, h)),
     (Vec3(0, 0, 0), Vec3(0, 0, 1)),
     (Vec3(h, 0, 0), Vec3(h, 0, 1)),
     (Vec3(0, 0, 0), Vec3(0, 1, 0)),
     (Vec3(h, 0, 0), Vec3(h, 1, 0)),
     (Vec3(0, 0, h), Vec3(0, 1, h)),
     (Vec3(h, 0, h), Vec3(h, 1, h)),
     (Vec3(0, h, 0), Vec3(1, h, 0)),
     (Vec3(0, h, h), Vec3(1, h, h)),
     (Vec3(0, h, 0), Vec3(0, h, 1)),
     (Vec3(h, h, 0), Vec3(h, h, 1))]
  }

  /** Offsets of the 6 neighbours sharing a face with the chunk. */
  const FaceChunks: seq<Vec3> := [
    Vec3(0, 0, 1), Vec3(0, 0, -1), Vec3(0, 1, 0),
    Vec3(0, -1, 0), Vec3(1, 0, 0), Vec3(-1, 0, 0)]

  /** Per face neighbour, the first voxel of the touching plane and the next
      one along its columns. */
  function SubsequentColumnCoords(h: int): seq<(Vec3, Vec3)>
  {
    [(Vec3(0, 0, 0), Vec3(1, 0, 0)),
     (Vec3(0, 0, h), Vec3(1, 0, h)),
     (Vec3(0, 0, 0), Vec3(1, 0, 0)),
     (Vec3(0, h, 0), Vec3(1, h, 0)),
     (Vec3(0, 0, 0), Vec3(0, 1, 0)),
     (Vec3(h, 0, 0), Vec3(h, 1, 0))]
  }

  /** The same first voxel and the next one along the plane's rows. */
  function SubsequentRowCoords(h: int): seq<(Vec3, Vec3)>
  {
    [(Vec3(0, 0, 0), Vec3(0, 1, 0)),
     (Vec3(0, 0, h), Vec3(0, 1, h)),
     (Vec3(0, 0, 0), Vec3(0, 0, 1)),
     (Vec3(0, h, 0), Vec3(0, h, 1)),
     (Vec3(0, 0, 0), Vec3(0, 0, 1)),
     (Vec3(h, 0, 0), Vec3(h, 0, 1))]
  }

  datatype Kind = Corner | Edge | Face

  /** The offsets table of a kind of neighbour. */
  function Chunks(kind: Kind): seq<Vec3>
  {
    match kind
    case Corner => CornerChunks
    case Edge => EdgeChunks
    case Face => FaceChunks
  }

  /** A neighbour's offset: each coordinate in -1..1, not all 0. */
  predicate IsNeighbour(o: Vec3)
  {
    IsOffset(o.x) && IsOffset(o.y) && IsOffset(o.z) && o != Vec3(0, 0, 0)
  }

  /** The slot of offset o in the 3x3x3 grid of copies. */
  function Slot(o: Vec3): int
  {
    SlotIndex(o.x, o.y, o.z)
  }

  /** Coordinate v, on an axis where a neighbour lies at offset o from the
      chunk, of a neighbour voxel next to the chunk: the neighbour's first
      layer when it lies above (o = 1), its last layer when it lies below
      (o = -1), any layer when it is level (o = 0). */
  predicate Facing(cs: int, o: int, v: int)
  {
    0 <= v < cs && (o == 1 ==> v == 0) && (o == -1 ==> v == cs - 1)
  }

  /** Voxel p of the neighbour at offset o shares a face, an edge or a corner
      with the chunk. */
  predicate Touching(cs: int, o: Vec3, p: Vec3)
  {
    Facing(cs, o.x, p.x) && Facing(cs, o.y, p.y) && Facing(cs, o.z, p.z)
  }

  /** The copy `buf` of the neighbour at offset o with data nb agrees with it
      on every voxel touching the chunk. */
  ghost predicate CopiedFrom(buf: array<int>, nb: seq<int>, cs: int, o: Vec3)
    reads buf
  {
    && buf.Length == cs * cs * cs && |nb| == cs * cs * cs
    && forall p :: Touching(cs, o, p) ==> Voxel(buf[..], cs, p.x, p.y, p.z) == Voxel(nb, cs, p.x, p.y, p.z)
  }

  /** The table entry that names each neighbour: together the three tables
      list all 26 neighbours. */
  function EntryOf(o: Vec3): (r: (Kind, int))
    requires IsNeighbour(o)
    ensures 0 <= r.1 < |Chunks(r.0)| && Chunks(r.0)[r.1] == o
  {
    match (o.x, o.y, o.z)
    case (1, 1, 1) => (Corner, 0)
    case (1, 1, -1) => (Corner, 1)
    case (1, -1, 1) => (Corner, 2)
    case (-1, 1, 1) => (Corner, 3)
    case (-1, -1, 1) => (Corner, 4)
    case (-1, 1, -1) => (Corner, 5)
    case (1, -1, -1) => (Corner, 6)
    case (-1, -1, -1) => (Corner, 7)
    case (0, 1, 1) => (Edge, 0)
    case (0, 1, -1) => (Edge, 1)
    case (1, 1, 0) => (Edge, 2)
    case (-1, 1, 0) => (Edge, 3)
    case (1, 0, 1) => (Edge, 4)
    case (-1, 0, 1) => (Edge, 5)
    case (1, 0, -1) => (Edge, 6)
    case (-1, 0, -1) => (Edge, 7)
    case (0, -1, 1) => (Edge, 8)
    case (0, -1, -1) => (Edge, 9)
    case (1, -1, 0) => (Edge, 10)
    case (-1, -1, 0) => (Edge, 11)
    case (0, 0, 1) => (Face, 0)
    case (0, 0, -1) => (Face, 1)
    case (0, 1, 0) => (Face, 2)
    case (0, -1, 0) => (Face, 3)
    case (1, 0, 0) => (Face, 4)
    case (_, _, _) => (Face, 5)
  }

  /** The fixed coordinate of a voxel touching the chunk on an axis where
      the neighbour is off the chunk. */
  predicate Pinned(cs: int, o: int, v: int)
  {
    (o == 1 && v == 0) || (o == -1 && v == cs - 1)
  }

  /** The first axis on which a neighbour is level with the chunk. */
  function LevelAxis(o: Vec3): int
  {
    if o.x == 0 then 0 else if o.y == 0 then 1 else 2
  }

  /** The second one, for a face neighbour (level on two axes). */
  function SecondLevelAxis(o: Vec3): int
  {
    if o.z == 0 then 2 else 1
  }

  /** An edge entry: the neighbour is level with the chunk on axis f, the
      first voxel is on the chunk's side of it on the other two axes and at
      0 on f, and the second voxel is one step further along f. */
  predicate EdgeShaped(cs: int, o: Vec3, p1: Vec3, p2: Vec3, f: int)
  {
    && IsAxis(f) && o.Get(f) == 0 && p1.Get(f) == 0 && p2 == p1.Set(f, 1)
    && forall g :: 0 <= g < 3 && g != f ==> Pinned(cs, o.Get(g), p1.Get(g))
  }

  /** A face entry: the neighbour is level with the chunk on axes fc and fr,
      the column and row tables start at the same voxel, at 0 on both level
      axes and on the chunk's side on the third, and their second voxels are
      one step along fc and fr. */
  predicate FaceShaped(cs: int, o: Vec3, c1: Vec3, c2: Vec3, r1: Vec3, r2: Vec3, fc: int, fr: int)
  {
    && IsAxis(fc) && IsAxis(fr) && fc != fr && r1 == c1
    && o.Get(fc) == 0 && o.Get(fr) == 0 && c1.Get(fc) == 0 && c1.Get(fr) == 0
    && c2 == c1.Set(fc, 1) && r2 == c1.Set(fr, 1)
    && forall g :: 0 <= g < 3 && g != fc && g != fr ==> Pinned(cs, o.Get(g), c1.Get(g))
  }

  /** Every table entry names a neighbour, so no copy lands in the chunk's
      own slot. */
  lemma EntriesAreNeighbours(kind: Kind)
    ensures forall e :: 0 <= e < |Chunks(kind)| ==> IsNeighbour(Chunks(kind)[e])
  {
  }

  /** Every corner entry's voxel is on the chunk's side of the neighbour on
      all three axes. */
  lemma CornerTable(cs: int)
    requires 1 <= cs
    ensures forall e :: 0 <= e < |CornerChunks| ==> var o, p := CornerChunks[e], CornerCoords(cs - 1)[e];
      Pinned(cs, o.x, p.x) && Pinned(cs, o.y, p.y) && Pinned(cs, o.z, p.z)
  {
  }

  /** Every edge entry has the shape EdgeShaped describes. */
  lemma EdgeTable(cs: int)
    requires 1 <= cs
    ensures forall e :: 0 <= e < |EdgeChunks| ==> var o, ps := EdgeChunks[e], SubsequentEdgeCoords(cs - 1)[e];
      EdgeShaped(cs, o, ps.0, ps.1, LevelAxis(o))
  {
  }

  /** Every face entry has the shape FaceShaped describes. */
  lemma FaceTable(cs: int)
    requires 1 <= cs
    ensures forall e :: 0 <= e < |FaceChunks| ==>
      var o, cp, rp := FaceChunks[e], SubsequentColumnCoords(cs - 1)[e], SubsequentRowCoords(cs - 1)[e];
      FaceShaped(cs, o, cp.0, cp.1, rp.0, rp.1, LevelAxis(o), SecondLevelAxis(o))
  {
  }

  /** A voxel pinned on all three axes is the one voxel of a corner
      neighbour touching the chunk. */
  lemma CornerTouching(cs: int, o: Vec3, p: Vec3)
    requires 1 <= cs && Pinned(cs, o.x, p.x) && Pinned(cs, o.y, p.y) && Pinned(cs, o.z, p.z)
    ensures Touching(cs, o, p)
    ensures forall q :: Touching(cs, o, q) ==> q == p
  {
  }

  /** The voxels of an edge neighbour touching the chunk are exactly the
      line through the entry's first voxel along the level axis. */
  lemma EdgeTouching(cs: int, o: Vec3, p1: Vec3, p2: Vec3, f: int)
    requires 1 <= cs && EdgeShaped(cs, o, p1, p2, f)
    ensures forall t :: 0 <= t < cs ==> Touching(cs, o, p1.Set(f, t))
    ensures forall q :: Touching(cs, o, q) ==> q == p1.Set(f, q.Get(f))
  {
    if f == 0 {
      assert Pinned(cs, o.Get(1), p1.Get(1)) && Pinned(cs, o.Get(2), p1.Get(2));
    } else if f == 1 {
      assert Pinned(cs, o.Get(0), p1.Get(0)) && Pinned(cs, o.Get(2), p1.Get(2));
    } else {
      assert Pinned(cs, o.Get(0), p1.Get(0)) && Pinned(cs, o.Get(1), p1.Get(1));
    }
  }

  /** The voxels of a face neighbour touching the chunk are exactly the
      plane through the entry's first voxel along the two level axes. */
  lemma FaceTouching(cs: int, o: Vec3, c1: Vec3, c2: Vec3, r1: Vec3, r2: Vec3, fc: int, fr: int)
    requires 1 <= cs && FaceShaped(cs, o, c1, c2, r1, r2, fc, fr)
    ensures forall t1, t2 :: 0 <= t1 < cs && 0 <= t2 < cs ==> Touching(cs, o, c1.Set(fc, t1).Set(fr, t2))
    ensures forall q :: Touching(cs, o, q) ==> q == c1.Set(fc, q.Get(fc)).Set(fr, q.Get(fr))
  {
    var g := 3 - fc - fr;
    assert Pinned(cs, o.Get(g), c1.Get(g));
  }

  /** t steps along axis f from a voxel whose f coordinate is 0 add t strides
      of f to its flat index. */
  lemma {:induction false} LineIndex(cs: int, p: Vec3, f: int, t: int)
    requires IsAxis(f) && p.Get(f) == 0 && 0 <= t
    ensures var q := p.Set(f, t);
      Index(cs, q.x, q.y, q.z) == Index(cs, p.x, p.y, p.z) + RowStart(Stride(cs, f), t)
  {
    if t > 0 {
      LineIndex(cs, p, f, t - 1);
      var q := p.Set(f, t - 1);
      IndexStep(cs, q, f, t);
      assert q.Set(f, t) == p.Set(f, t);
    }
  }

  /** Voxel (t1, t2) of the plane through c1 along fc and fr sits t1 strides
      of fc and t2 strides of fr after c1. */
  lemma PlaneIndex(cs: int, c1: Vec3, fc: int, fr: int, t1: int, t2: int)
    requires IsAxis(fc) && IsAxis(fr) && fc != fr && c1.Get(fc) == 0 && c1.Get(fr) == 0
    requires 0 <= t1 && 0 <= t2
    ensures var q := c1.Set(fc, t1).Set(fr, t2);
      Index(cs, q.x, q.y, q.z) == Index(cs, c1.x, c1.y, c1.z) + RowStart(Stride(cs, fc), t1) + RowStart(Stride(cs, fr), t2)
  {
    LineIndex(cs, c1, fc, t1);
    LineIndex(cs, c1.Set(fc, t1), fr, t2);
  }

  /** The copy loop along one line (lines 514-516, and the inner loop of
      lines 553-555): `copiedChunk[idx] = data[idx]` for cs voxels, idx
      starting at i1 and stepping by stride. Cells that already agreed with
      the neighbour still do. */
  method CopyLine(buf: array<int>, nb: seq<int>, i1: int, stride: int, cs: int)
    requires buf.Length == |nb| && 0 <= cs
    requires forall t :: 0 <= t < cs ==> 0 <= i1 + RowStart(stride, t) < |nb|
    modifies buf
    ensures forall t :: 0 <= t < cs ==> buf[i1 + RowStart(stride, t)] == nb[i1 + RowStart(stride, t)]
    ensures forall n :: 0 <= n < |nb| && old(buf[n]) == nb[n] ==> buf[n] == nb[n]
  {
    var counter, idx := 0, i1;
    while counter < cs
      invariant 0 <= counter <= cs && idx == i1 + RowStart(stride, counter)
      invariant forall t :: 0 <= t < counter ==> buf[i1 + RowStart(stride, t)] == nb[i1 + RowStart(stride, t)]
      invariant forall n :: 0 <= n < |nb| && old(buf[n]) == nb[n] ==> buf[n] == nb[n]
    {
      buf[idx] := nb[idx];
      counter, idx := counter + 1, idx + stride;
    }
  }

  /** A corner neighbour (lines 483-487): the one touching voxel is set from
      the neighbour's voxel at the same coordinates. */
  method CopyCorner(cs: int, nb: seq<int>, buf: array<int>, e: int)
    requires 1 <= cs && 0 <= e < |CornerChunks|
    requires buf.Length == cs * cs * cs && |nb| == cs * cs * cs
    modifies buf
    ensures CopiedFrom(buf, nb, cs, CornerChunks[e])
  {
    var p := CornerCoords(cs - 1)[e];
    CornerTable(cs);
    CornerTouching(cs, CornerChunks[e], p);
    IndexInRange(cs, p.x, p.y, p.z);
    buf[Index(cs, p.x, p.y, p.z)] := Voxel(nb, cs, p.x, p.y, p.z);
  }

  /** The stride computed from an edge entry walks exactly the touching
      line: cs steps from the first voxel stay in the chunk, and every
      touching voxel is one of them. */
  lemma EdgeLine(cs: int, e: int, i1: int, stride: int)
    requires 1 <= cs && 0 <= e < |EdgeChunks|
    requires var ps := SubsequentEdgeCoords(cs - 1)[e];
      && i1 == Index(cs, ps.0.x, ps.0.y, ps.0.z)
      && stride == Index(cs, ps.1.x, ps.1.y, ps.1.z) - i1
    ensures forall t :: 0 <= t < cs ==> 0 <= i1 + RowStart(stride, t) < cs * cs * cs
    ensures var o := EdgeChunks[e]; var f := LevelAxis(o);
      IsAxis(f) && forall q :: Touching(cs, o, q) ==>
        0 <= q.Get(f) < cs && Index(cs, q.x, q.y, q.z) == i1 + RowStart(stride, q.Get(f))
  {
    var o, p1, p2 := EdgeChunks[e], SubsequentEdgeCoords(cs - 1)[e].0, SubsequentEdgeCoords(cs - 1)[e].1;
    var f := LevelAxis(o);
    EdgeTable(cs);
    EdgeTouching(cs, o, p1, p2, f);
    LineIndex(cs, p1, f, 1);
    forall t | 0 <= t < cs
      ensures 0 <= i1 + RowStart(stride, t) < cs * cs * cs
    {
      LineIndex(cs, p1, f, t);
      var q := p1.Set(f, t);
      IndexInRange(cs, q.x, q.y, q.z);
    }
    forall q | Touching(cs, o, q)
      ensures Index(cs, q.x, q.y, q.z) == i1 + RowStart(stride, q.Get(f))
    {
      LineIndex(cs, p1, f, q.Get(f));
    }
  }

  /** An edge neighbour (lines 504-516): the index difference of the table's
      two voxels is the stride that walks the touching line. */
  method CopyEdge(cs: int, nb: seq<int>, buf: array<int>, e: int)
    requires 1 <= cs && 0 <= e < |EdgeChunks|
    requires buf.Length == cs * cs * cs && |nb| == cs * cs * cs
    modifies buf
    ensures CopiedFrom(buf, nb, cs, EdgeChunks[e])
  {
    var p1, p2 := SubsequentEdgeCoords(cs - 1)[e].0, SubsequentEdgeCoords(cs - 1)[e].1;
    var i1 := Index(cs, p1.x, p1.y, p1.z);
    var i2 := Index(cs, p2.x, p2.y, p2.z);
    var stride := i2 - i1;
    EdgeLine(cs, e, i1, stride);
    CopyLine(buf, nb, i1, stride, cs);
  }

  /** The touching plane of a face neighbour lies inside the buffer. */
  ghost predicate PlaneIn(ci1: int, columnStride: int, rowStride: int, cs: int, n: int)
  {
    forall t1, t2 :: 0 <= t1 < cs && 0 <= t2 < cs ==>
      0 <= ci1 + RowStart(columnStride, t1) + RowStart(rowStride, t2) < n
  }

  /** The two nested copy loops of a face neighbour (lines 553-557): the
      outer one walks the column starts, the inner one (CopyLine) a row from
      each. */
  method CopyPlane(buf: array<int>, nb: seq<int>, ci1: int, columnStride: int, rowStride: int, cs: int)
    requires buf.Length == |nb| && 0 <= cs && PlaneIn(ci1, columnStride, rowStride, cs, |nb|)
    modifies buf
    ensures forall t1, t2 :: 0 <= t1 < cs && 0 <= t2 < cs ==>
      buf[ci1 + RowStart(columnStride, t1) + RowStart(rowStride, t2)]
        == nb[ci1 + RowStart(columnStride, t1) + RowStart(rowStride, t2)]
  {
    var counter1, cIdx := 0, ci1;
    while counter1 < cs
      invariant 0 <= counter1 <= cs && cIdx == ci1 + RowStart(columnStride, counter1)
      invariant forall t1, t2 :: 0 <= t1 < counter1 && 0 <= t2 < cs ==>
        buf[ci1 + RowStart(columnStride, t1) + RowStart(rowStride, t2)]
          == nb[ci1 + RowStart(columnStride, t1) + RowStart(rowStride, t2)]
    {
      CopyLine(buf, nb, cIdx, rowStride, cs);
      counter1, cIdx := counter1 + 1, cIdx + columnStride;
    }
  }

  /** The strides computed from a face entry walk exactly the touching
      plane: cs by cs steps from the first voxel stay in the chunk, and
      every touching voxel is one of them. */
  lemma FacePlane(cs: int, e: int, ci1: int, columnStride: int, rowStride: int)
    requires 1 <= cs && 0 <= e < |FaceChunks|
    requires var cp, rp := SubsequentColumnCoords(cs - 1)[e], SubsequentRowCoords(cs - 1)[e];
      && ci1 == Index(cs, cp.0.x, cp.0.y, cp.0.z)
      && columnStride == Index(cs, cp.1.x, cp.1.y, cp.1.z) - ci1
      && rowStride == Index(cs, rp.1.x, rp.1.y, rp.1.z) - Index(cs, rp.0.x, rp.0.y, rp.0.z)
    ensures PlaneIn(ci1, columnStride, rowStride, cs, cs * cs * cs)
    ensures var o := FaceChunks[e]; var fc, fr := LevelAxis(o), SecondLevelAxis(o);
      IsAxis(fc) && IsAxis(fr) && forall q :: Touching(cs, o, q) ==>
        && 0 <= q.Get(fc) < cs && 0 <= q.Get(fr) < cs
        && Index(cs, q.x, q.y, q.z) == ci1 + RowStart(columnStride, q.Get(fc)) + RowStart(rowStride, q.Get(fr))
  {
    var o := FaceChunks[e];
    var c1, c2 := SubsequentColumnCoords(cs - 1)[e].0, SubsequentColumnCoords(cs - 1)[e].1;
    var r1, r2 := SubsequentRowCoords(cs - 1)[e].0, SubsequentRowCoords(cs - 1)[e].1;
    var fc, fr := LevelAxis(o), SecondLevelAxis(o);
    FaceTable(cs);
    FaceTouching(cs, o, c1, c2, r1, r2, fc, fr);
    LineIndex(cs, c1, fc, 1);
    LineIndex(cs, c1, fr, 1);
    forall t1, t2 | 0 <= t1 < cs && 0 <= t2 < cs
      ensures 0 <= ci1 + RowStart(columnStride, t1) + RowStart(rowStride, t2) < cs * cs * cs
    {
      PlaneIndex(cs, c1, fc, fr, t1, t2);
      var q := c1.Set(fc, t1).Set(fr, t2);
      IndexInRange(cs, q.x, q.y, q.z);
    }
    forall q | Touching(cs, o, q)
      ensures Index(cs, q.x, q.y, q.z) == ci1 + RowStart(columnStride, q.Get(fc)) + RowStart(rowStride, q.Get(fr))
    {
      PlaneIndex(cs, c1, fc, fr, q.Get(fc), q.Get(fr));
    }
  }

  /** A face neighbour (lines 533-556): the index differences of the
      tables' voxels are the column and row strides of the touching plane. */
  method CopyFace(cs: int, nb: seq<int>, buf: array<int>, e: int)
    requires 1 <= cs && 0 <= e < |FaceChunks|
    requires buf.Length == cs * cs * cs && |nb| == cs * cs * cs
    modifies buf
    ensures CopiedFrom(buf, nb, cs, FaceChunks[e])
  {
    var c1, c2 := SubsequentColumnCoords(cs - 1)[e].0, SubsequentColumnCoords(cs - 1)[e].1;
    var r1, r2 := SubsequentRowCoords(cs - 1)[e].0, SubsequentRowCoords(cs - 1)[e].1;
    var ci1 := Index(cs, c1.x, c1.y, c1.z);
    var ci2 := Index(cs, c2.x, c2.y, c2.z);
    var columnStride := ci2 - ci1;
    var ri1 := Index(cs, r1.x, r1.y, r1.z);
    var ri2 := Index(cs, r2.x, r2.y, r2.z);
    var rowStride := ri2 - ri1;
    FacePlane(cs, e, ci1, columnStride, rowStride);
    CopyPlane(buf, nb, ci1, columnStride, rowStride, cs);
  }

  /** The neighbours' voxel data: 27 slots, each present one of chunk size. */
  predicate NeighbourSizes(nbrs: seq<Option<seq<int>>>, cs: int)
  {
    |nbrs| == 27 && forall s :: 0 <= s < 27 && nbrs[s].Some? ==> |nbrs[s].value| == cs * cs * cs
  }

  /** The copies own their buffers: each filled slot holds a buffer of the
      chunk's size that is not in the pool and not in another slot. */
  ghost predicate Owned(grid: array<Option<array<int>>>, cs: int, pool: ChunkArrPool)
    reads grid, pool
  {
    grid.Length == 27 && Owns(grid[..], cs, pool.arr)
  }

  ghost predicate Owns(g: seq<Option<array<int>>>, cs: int, pooled: seq<array<int>>)
  {
    && (forall s :: 0 <= s < |g| && g[s].Some? ==> g[s].value.Length == cs * cs * cs && g[s].value !in pooled)
    && (forall s, t :: 0 <= s < t < |g| && g[s].Some? && g[t].Some? ==> g[s].value != g[t].value)
  }

  /** Putting a buffer that is neither pooled nor in another slot into a
      slot keeps the slots owning their buffers. */
  lemma OwnsStep(g: seq<Option<array<int>>>, cs: int, pooled: seq<array<int>>, pooled': seq<array<int>>,
                 s: int, b: array<int>)
    requires Owns(g, cs, pooled) && 0 <= s < |g| && b.Length == cs * cs * cs && b !in pooled'
    requires forall n :: 0 <= n < |pooled'| ==> pooled'[n] in pooled
    requires forall t :: 0 <= t < |g| && t != s && g[t].Some? ==> g[t].value != b
    ensures Owns(g[s := Some(b)], cs, pooled')
  {
  }

  /** Each filled neighbour slot holds the copy of that neighbour's voxels
      touching the chunk, so the slot of an absent neighbour is empty. */
  ghost predicate Copied(grid: array<Option<array<int>>>, nbrs: seq<Option<seq<int>>>, cs: int)
    reads grid, set s | 0 <= s < grid.Length && grid[s].Some? :: grid[s].value
  {
    && grid.Length == 27 && |nbrs| == 27
    && forall o {:trigger Slot(o)} :: IsNeighbour(o) && grid[Slot(o)].Some? ==>
         nbrs[Slot(o)].Some? && CopiedFrom(grid[Slot(o)].value, nbrs[Slot(o)].value, cs, o)
  }

  /** The copy of a listed neighbour, by the kind of its table. */
  method CopyTouching(kind: Kind, e: int, cs: int, nb: seq<int>, buf: array<int>)
    requires 1 <= cs && 0 <= e < |Chunks(kind)|
    requires buf.Length == cs * cs * cs && |nb| == cs * cs * cs
    modifies buf
    ensures CopiedFrom(buf, nb, cs, Chunks(kind)[e])
  {
    match kind
    case Corner => CopyCorner(cs, nb, buf, e);
    case Edge => CopyEdge(cs, nb, buf, e);
    case Face => CopyFace(cs, nb, buf, e);
  }

  /** The body of the `if (neighborChunk)` of a table loop (lines 479-490,
      499-519, 528-559): a pooled buffer goes into the slot of the listed
      neighbour and receives the copy of its touching voxels. */
  method CopyPresent(kind: Kind, e: int, cs: int, nb: seq<int>, nbrs: seq<Option<seq<int>>>,
                     grid: array<Option<array<int>>>, pool: ChunkArrPool)
    requires 1 <= cs && pool.cs == cs && pool.Valid() && 0 <= e < |Chunks(kind)|
    requires NeighbourSizes(nbrs, cs) && Owned(grid, cs, pool) && Copied(grid, nbrs, cs)
    requires nbrs[Slot(Chunks(kind)[e])] == Some(nb)
    modifies grid, pool, pool.arr
    ensures pool.Valid() && Owned(grid, cs, pool) && Copied(grid, nbrs, cs)
    ensures forall n :: 0 <= n < |pool.arr| ==> pool.arr[n] in old(pool.arr)
    ensures var s := Slot(Chunks(kind)[e]);
      && grid[s].Some? && forall t :: 0 <= t < 27 && t != s ==> grid[t] == old(grid[t])
  {
    EntriesAreNeighbours(kind);
    var o := Chunks(kind)[e];
    ghost var g := grid[..];
    var copiedChunk := pool.Get();
    grid[SlotIndex(o.x, o.y, o.z)] := Some(copiedChunk);
    OwnsStep(g, cs, old(pool.arr), pool.arr, Slot(o), copiedChunk);
    assert grid[..] == g[Slot(o) := Some(copiedChunk)];
    CopyTouching(kind, e, cs, nb, copiedChunk);
    forall o' | IsNeighbour(o') && grid[Slot(o')].Some?
      ensures nbrs[Slot(o')].Some? && CopiedFrom(grid[Slot(o')].value, nbrs[Slot(o')].value, cs, o')
    {
      if o' != o {
        var b := grid[Slot(o')].value;
        assert b != copiedChunk && b[..] == old(b[..]);
      }
    }
  }

  /** One pass of a table loop (the loops at lines 474, 494 and 523): the
      listed neighbour, when present, gets its copy (CopyPresent); the
      loop's invariant moves on to the next entry. */
  method CopyNeighbour(kind: Kind, e: int, cs: int, nbrs: seq<Option<seq<int>>>,
                       grid: array<Option<array<int>>>, pool: ChunkArrPool,
                       ghost g0: seq<Option<array<int>>>, ghost arr0: seq<array<int>>)
    requires 1 <= cs && pool.cs == cs && pool.Valid() && 0 <= e < |Chunks(kind)|
    requires NeighbourSizes(nbrs, cs) && Owned(grid, cs, pool) && Copied(grid, nbrs, cs)
    requires |g0| == 27 && Covers(grid[..], nbrs, kind, e) && grid[Centre] == g0[Centre]
    requires Grows(g0, grid[..])
    requires forall n :: 0 <= n < |pool.arr| ==> pool.arr[n] in arr0
    modifies grid, pool, pool.arr
    ensures pool.Valid() && Owned(grid, cs, pool) && Copied(grid, nbrs, cs)
    ensures Covers(grid[..], nbrs, kind, e + 1) && grid[Centre] == g0[Centre]
    ensures Grows(g0, grid[..])
    ensures forall n :: 0 <= n < |pool.arr| ==> pool.arr[n] in arr0
  {
    EntriesAreNeighbours(kind);
    var o := Chunks(kind)[e];
    SlotIndexRange(o.x, o.y, o.z);
    var neighbourChunk := nbrs[SlotIndex(o.x, o.y, o.z)];
    ghost var g := grid[..];
    if neighbourChunk.Some? {
      CopyPresent(kind, e, cs, neighbourChunk.value, nbrs, grid, pool);
    }
    CoversStep(g, grid[..], nbrs, kind, e);
  }

  /** Every present neighbour among the first n a table lists has a filled
      slot. */
  ghost predicate Covers(g: seq<Option<array<int>>>, nbrs: seq<Option<seq<int>>>, kind: Kind, n: int)
    requires |g| == 27 && |nbrs| == 27 && n <= |Chunks(kind)|
  {
    EntriesAreNeighbours(kind);
    forall e :: 0 <= e < n && nbrs[Slot(Chunks(kind)[e])].Some? ==> g[Slot(Chunks(kind)[e])].Some?
  }

  /** Slots filled in g are still filled in g'. */
  ghost predicate Grows(g: seq<Option<array<int>>>, g': seq<Option<array<int>>>)
  {
    |g| == |g'| && forall s :: 0 <= s < |g| && g[s].Some? ==> g'[s].Some?
  }

  /** The loop's progress moves on by one entry when that entry's slot is
      filled (or its neighbour absent) and no filled slot is emptied. */
  lemma CoversStep(g: seq<Option<array<int>>>, g': seq<Option<array<int>>>, nbrs: seq<Option<seq<int>>>,
                   kind: Kind, e: int)
    requires |g| == 27 && |nbrs| == 27 && 0 <= e < |Chunks(kind)|
    requires Covers(g, nbrs, kind, e) && Grows(g, g')
    requires nbrs[Slot(Chunks(kind)[e])].Some? ==> g'[Slot(Chunks(kind)[e])].Some?
    ensures Covers(g', nbrs, kind, e + 1)
  {
    EntriesAreNeighbours(kind);
  }

  /** One of the loops over a table (lines 474-491, 494-520, 523-560): every
      present neighbour the table lists ends with its copy in its slot;
      slots filled before stay filled and the chunk's own slot is left
      alone. */
  method CopyNeighbours(kind: Kind, cs: int, nbrs: seq<Option<seq<int>>>,
                        grid: array<Option<array<int>>>, pool: ChunkArrPool)
    requires 1 <= cs && pool.cs == cs && pool.Valid()
    requires NeighbourSizes(nbrs, cs) && Owned(grid, cs, pool) && Copied(grid, nbrs, cs)
    modifies grid, pool, pool.arr
    ensures pool.Valid() && Owned(grid, cs, pool) && Copied(grid, nbrs, cs)
    ensures forall n :: 0 <= n < |pool.arr| ==> pool.arr[n] in old(pool.arr)
    ensures Covers(grid[..], nbrs, kind, |Chunks(kind)|)
    ensures grid[Centre] == old(grid[Centre])
    ensures Grows(old(grid[..]), grid[..])
  {
    EntriesAreNeighbours(kind);
    ghost var g0, arr0 := grid[..], pool.arr;
    var e := 0;
    while e < |Chunks(kind)|
      invariant 0 <= e <= |Chunks(kind)|
      invariant pool.Valid() && Owned(grid, cs, pool) && Copied(grid, nbrs, cs)
      invariant forall n :: 0 <= n < |pool.arr| ==> pool.arr[n] in arr0
      invariant Covers(grid[..], nbrs, kind, e) && grid[Centre] == g0[Centre]
      invariant Grows(g0, grid[..])
    {
      CopyNeighbour(kind, e, cs, nbrs, grid, pool, g0, arr0);
      e := e + 1;
    }
  }

  /** The chunk's own voxels, copied whole (lines 566-568). */
  method CopyAll(buf: array<int>, data: seq<int>)
    requires buf.Length == |data|
    modifies buf
    ensures buf[..] == data
  {
    var x := 0;
    while x < |data|
      invariant 0 <= x <= |data| && buf[..x] == data[..x]
    {
      buf[x] := data[x];
      x := x + 1;
    }
  }

  /** The buffers of the filled slots, in slot order. */
  function Present(g: seq<Option<array<int>>>): seq<array<int>>
  {
    if g == [] then []
    else Present(g[..|g| - 1]) + (if g[|g| - 1].Some? then [g[|g| - 1].value] else [])
  }

  /** A buffer is collected exactly when some slot holds it. */
  lemma {:induction false} PresentMembers(g: seq<Option<array<int>>>)
    ensures forall b :: b in Present(g) <==> Some(b) in g
  {
    if g != [] {
      PresentMembers(g[..|g| - 1]);
      assert g == g[..|g| - 1] + [g[|g| - 1]];
    }
  }

  /** When no two slots share a buffer, no buffer is collected twice: the
      list can be handed to postMessage as its transfer list. */
  lemma {:induction false} PresentDistinct(g: seq<Option<array<int>>>)
    requires forall s, t :: 0 <= s < t < |g| && g[s].Some? && g[t].Some? ==> g[s].value != g[t].value
    ensures forall m, n :: 0 <= m < n < |Present(g)| ==> Present(g)[m] != Present(g)[n]
  {
    if g != [] {
      var g' := g[..|g| - 1];
      PresentDistinct(g');
      PresentMembers(g');
    }
  }

  /** Collecting the filled slots' buffers in slot order (lines 570-576). */
  method CollectBuffers(grid: array<Option<array<int>>>) returns (buffers: seq<array<int>>)
    ensures buffers == Present(grid[..])
  {
    buffers := [];
    var s := 0;
    while s < grid.Length
      invariant 0 <= s <= grid.Length && buffers == Present(grid[..s])
    {
      if grid[s].Some? {
        buffers := buffers + [grid[s].value];
      }
      s := s + 1;
      assert grid[..s][..s - 1] == grid[..s - 1];
    }
    assert grid[..grid.Length] == grid[..];
  }

  /** The corner and edge loops' progress survives the later loops, which
      only fill slots. */
  lemma CoversKept(g1: seq<Option<array<int>>>, g2: seq<Option<array<int>>>, g3: seq<Option<array<int>>>,
                   nbrs: seq<Option<seq<int>>>)
    requires |g1| == 27 && |nbrs| == 27 && Grows(g1, g2) && Grows(g2, g3)
    requires Covers(g1, nbrs, Corner, 8) && Covers(g2, nbrs, Edge, 12) && Covers(g3, nbrs, Face, 6)
    ensures forall o {:trigger Slot(o)} :: IsNeighbour(o) && nbrs[Slot(o)].Some? ==> g3[Slot(o)].Some?
  {
    forall o | IsNeighbour(o) && nbrs[Slot(o)].Some?
      ensures g3[Slot(o)].Some?
    {
      var r := EntryOf(o);
    }
  }

  /** The three table loops (lines 474-560): afterwards exactly the slots
      of the present neighbours are filled, each with its copy, and the
      chunk's own slot is left alone. */
  method CopyListedNeighbours(cs: int, nbrs: seq<Option<seq<int>>>,
                              grid: array<Option<array<int>>>, pool: ChunkArrPool)
    requires 1 <= cs && pool.cs == cs && pool.Valid() && NeighbourSizes(nbrs, cs)
    requires grid.Length == 27 && forall s :: 0 <= s < 27 ==> grid[s] == None
    modifies grid, pool, pool.arr
    ensures pool.Valid() && Owned(grid, cs, pool) && Copied(grid, nbrs, cs)
    ensures forall n :: 0 <= n < |pool.arr| ==> pool.arr[n] in old(pool.arr)
    ensures forall o {:trigger Slot(o)} :: IsNeighbour(o) ==> (grid[Slot(o)].Some? <==> nbrs[Slot(o)].Some?)
    ensures grid[Centre] == None
  {
    CopyNeighbours(Corner, cs, nbrs, grid, pool);
    ghost var g1 := grid[..];
    CopyNeighbours(Edge, cs, nbrs, grid, pool);
    ghost var g2 := grid[..];
    CopyNeighbours(Face, cs, nbrs, grid, pool);
    CoversKept(g1, g2, grid[..], nbrs);
  }

  /** The chunk's own copy (lines 564-568): a pooled buffer in the centre
      slot holding all of the chunk's voxels; the neighbours' copies are
      left as they were. */
  method CopyCentre(cs: int, voxels: seq<int>, nbrs: seq<Option<seq<int>>>,
                    grid: array<Option<array<int>>>, pool: ChunkArrPool)
    requires 1 <= cs && pool.cs == cs && pool.Valid() && |voxels| == cs * cs * cs
    requires Owned(grid, cs, pool) && Copied(grid, nbrs, cs) && grid[Centre] == None
    modifies grid, pool, pool.arr
    ensures pool.Valid() && Owned(grid, cs, pool) && Copied(grid, nbrs, cs)
    ensures forall n :: 0 <= n < |pool.arr| ==> pool.arr[n] in old(pool.arr)
    ensures forall s :: 0 <= s < 27 && s != Centre ==> grid[s] == old(grid[s])
    ensures grid[Centre].Some? && grid[Centre].value[..] == voxels
  {
    var copiedChunk := pool.Get();
    grid[Centre] := Some(copiedChunk);
    CopyAll(copiedChunk, voxels);
  }

  /** copyNeighborChunksForMesh: a grid from the grid pool receives a pooled
      copy of every present neighbour's voxels touching the chunk and of the
      whole chunk; the buffers are collected in slot order, and the grid goes
      back to its pool before it is returned. */
  method CopyNeighborChunksForMesh(cs: int, voxels: seq<int>, nbrs: seq<Option<seq<int>>>,
                                   chunkPool: ChunkArrPool, gridPool: NeighborChunkArrPool)
    returns (copiedNeighbors: array<Option<array<int>>>, transferableBuffers: seq<array<int>>)
    requires 1 <= cs && chunkPool.cs == cs && chunkPool.Valid() && gridPool.Valid()
    requires |voxels| == cs * cs * cs && NeighbourSizes(nbrs, cs)
    modifies chunkPool, chunkPool.arr, gridPool, gridPool.arr
    ensures chunkPool.Valid() && gridPool.Valid()
    ensures Owned(copiedNeighbors, cs, chunkPool) && Copied(copiedNeighbors, nbrs, cs)
    ensures forall o {:trigger Slot(o)} :: IsNeighbour(o) ==>
      (copiedNeighbors[Slot(o)].Some? <==> nbrs[Slot(o)].Some?)
    ensures copiedNeighbors[Centre].Some? && copiedNeighbors[Centre].value[..] == voxels
    ensures transferableBuffers == Present(copiedNeighbors[..])
    ensures forall b :: b in transferableBuffers <==> Some(b) in copiedNeighbors[..]
    ensures forall m, n :: 0 <= m < n < |transferableBuffers| ==> transferableBuffers[m] != transferableBuffers[n]
    ensures old(gridPool.arr) == [] ==> gridPool.arr == [copiedNeighbors]
    ensures old(gridPool.arr) != [] ==> gridPool.arr == old(gridPool.arr)
  {
    copiedNeighbors := gridPool.Get();
    CopyListedNeighbours(cs, nbrs, copiedNeighbors, chunkPool);
    CopyCentre(cs, voxels, nbrs, copiedNeighbors, chunkPool);
    transferableBuffers := CollectBuffers(copiedNeighbors);
    PresentMembers(copiedNeighbors[..]);
    PresentDistinct(copiedNeighbors[..]);
    gridPool.Release(copiedNeighbors);
  }
}
