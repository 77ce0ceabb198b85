/** What the arrays createMeshData builds mean as geometry: where the four
    vertices of a quad lie, which way its normal and its two triangles
    face, which corner's AO level each vertex colour takes, and where in a
    group's arrays each quad's values land. */
module Geometry {
  import opened Common
  import opened AO
  import opened FaceData
  import opened Quads
  import opened Builder

  function Sub(p: Vec3, q: Vec3): Vec3
  {
    Vec3(p.x - q.x, p.y - q.y, p.z - q.z)
  }

  /** The 2 x 2 determinant | a b ; c d |. */
  function Det(a: int, b: int, c: int, d: int): int
  {
    a * d - b * c
  }

  function Cross(p: Vec3, q: Vec3): Vec3
  {
    Vec3(Det(p.y, p.z, q.y, q.z), Det(p.z, p.x, q.z, q.x), Det(p.x, p.y, q.x, q.y))
  }

  function Scale(p: Vec3, s: int): Vec3
  {
    Vec3(s * p.x, s * p.y, s * p.z)
  }

  // ------------------------------------------------------------ positions

  /** The quad lies in the plane x[axis] = loc[axis] and spans w along
      UAxis(axis) and h along VAxis(axis): vertex n sits at the corner
      (VertexU(n), VertexV(n)) of that rectangle. */
  lemma QuadInPlane(loc: Vec3, axis: int, w: int, h: int, n: int)
    requires IsAxis(axis) && 0 <= n < 4
    ensures var p := Quad(loc, axis, w, h)[n];
      && p.Get(axis) == loc.Get(axis)
      && p.Get(UAxis(axis)) == loc.Get(UAxis(axis)) + VertexU(n) * w
      && p.Get(VAxis(axis)) == loc.Get(VAxis(axis)) + VertexV(n) * h
  {
    var p := Quad(loc, axis, w, h)[n];
    if n == 0 {
    } else if n == 1 {
      assert VertexU(n) * w == w && VertexV(n) * h == 0;
    } else if n == 2 {
      assert VertexU(n) * w == w && VertexV(n) * h == h;
    } else {
      assert VertexU(n) * w == 0 && VertexV(n) * h == h;
    }
  }

  /** The quad recorded for mask rectangle r of plane i of the sweep along
      d has its vertices at the rectangle's corners, (j, k), (j + w, k),
      (j + w, k + h), (j, k + h) in the plane's coordinates, and its
      normal is the unit vector along d, positive for a positive mask value. */
  lemma QuadOfRect(d: int, i: int, r: Rect, n: int)
    requires IsAxis(d) && 0 <= n < 4
    ensures var f := RectFace(d, UAxis(d), VAxis(d), i, r);
      && QuadCorners(f)[n] == Place(d, UAxis(d), VAxis(d), i, r.j + VertexU(n) * r.w, r.k + VertexV(n) * r.h)
      && NormalVector(f.dir) == Zero().Set(d, if r.val > 0 then 1 else -1)
  {
    var f := RectFace(d, UAxis(d), VAxis(d), i, r);
    assert FaceAxis(f.dir) == d;
    SweepAxesArePermutation(d);
    var loc := Vec3(f.i, f.j, f.k);
    var x := Place(d, UAxis(d), VAxis(d), i, r.j, r.k);
    assert loc == x;
    QuadInPlane(loc, d, f.w, f.h, n);
    var p := QuadCorners(f)[n];
    var want := Place(d, UAxis(d), VAxis(d), i, r.j + VertexU(n) * r.w, r.k + VertexV(n) * r.h);
    assert p.Get(d) == want.Get(d) && p.Get(UAxis(d)) == want.Get(UAxis(d)) && p.Get(VAxis(d)) == want.Get(VAxis(d));
    assert p.Get(0) == want.Get(0) && p.Get(1) == want.Get(1) && p.Get(2) == want.Get(2);
  }

  // ------------------------------------------------------------ triangles

  /** The corners of a parallelogram at L spanned by du then dv, in the
      order Quad lists them. */
  function Corners4(L: Vec3, du: Vec3, dv: Vec3): (q: seq<Vec3>)
    ensures |q| == 4
  {
    [L, Add(L, du), Add(Add(L, du), dv), Add(L, dv)]
  }

  function Neg(p: Vec3): Vec3
  {
    Vec3(-p.x, -p.y, -p.z)
  }

  /** The edge cross product of triangle t of index list ci over Corners4:
      Cross(du, dv) for the two "base" lists, its opposite for the two
      "flipped" ones. */
  lemma TriangleCross(L: Vec3, du: Vec3, dv: Vec3, ci: int, t: int)
    requires 0 <= ci < 4 && 0 <= t < 2
    ensures var q := Corners4(L, du, dv);
      var list := IndexLists[ci];
      Cross(Sub(q[list[3 * t + 1]], q[list[3 * t]]), Sub(q[list[3 * t + 2]], q[list[3 * t]]))
        == if ci % 2 == 0 then Cross(du, dv) else Neg(Cross(du, dv))
  {
    var q := Corners4(L, du, dv);
    var list := IndexLists[ci];
    var e1, e2 := Sub(q[list[3 * t + 1]], q[list[3 * t]]), Sub(q[list[3 * t + 2]], q[list[3 * t]]);
    var ud, vd := Add(du, dv), Add(dv, Neg(du));
    CrossEdges(du, dv);
    if ci == 0 {
      if t == 0 { assert e1 == du && e2 == ud; } else { assert e1 == ud && e2 == dv; }
    } else if ci == 1 {
      if t == 0 { assert e1 == ud && e2 == du; } else { assert e1 == dv && e2 == ud; }
    } else if ci == 2 {
      if t == 0 { assert e1 == dv && e2 == vd; } else { assert e1 == vd && e2 == Neg(du); }
    } else {
      if t == 0 { assert e1 == vd && e2 == dv; } else { assert e1 == Neg(du) && e2 == vd; }
    }
  }

  /** The cross products of the edge pairs the eight triangles use, each
      Cross(a, b) or its opposite. */
  lemma CrossEdges(a: Vec3, b: Vec3)
    ensures Cross(a, Add(a, b)) == Cross(a, b) && Cross(Add(a, b), b) == Cross(a, b)
    ensures Cross(Add(a, b), a) == Neg(Cross(a, b)) && Cross(b, Add(a, b)) == Neg(Cross(a, b))
    ensures Cross(b, Add(b, Neg(a))) == Cross(a, b) && Cross(Add(b, Neg(a)), Neg(a)) == Cross(a, b)
    ensures Cross(Add(b, Neg(a)), b) == Neg(Cross(a, b)) && Cross(Neg(a), Add(b, Neg(a))) == Neg(Cross(a, b))
  {
    DetEdges(a.y, a.z, b.y, b.z);
    DetEdges(a.z, a.x, b.z, b.x);
    DetEdges(a.x, a.y, b.x, b.y);
  }

  /** CrossEdges for one component. */
  lemma DetEdges(a1: int, a2: int, b1: int, b2: int)
    ensures var D := Det(a1, a2, b1, b2);
      && Det(a1, a2, a1 + b1, a2 + b2) == D && Det(a1 + b1, a2 + b2, b1, b2) == D
      && Det(a1 + b1, a2 + b2, a1, a2) == -D && Det(b1, b2, a1 + b1, a2 + b2) == -D
      && Det(b1, b2, b1 + -a1, b2 + -a2) == D && Det(b1 + -a1, b2 + -a2, -a1, -a2) == D
      && Det(b1 + -a1, b2 + -a2, b1, b2) == -D && Det(-a1, -a2, b1 + -a1, b2 + -a2) == -D
  {
    assert a1 * (a2 + b2) - a2 * (a1 + b1) == a1 * b2 - a2 * b1;
    assert (a1 + b1) * b2 - (a2 + b2) * b1 == a1 * b2 - a2 * b1;
    assert (a1 + b1) * a2 - (a2 + b2) * a1 == a2 * b1 - a1 * b2;
    assert b1 * (a2 + b2) - b2 * (a1 + b1) == a2 * b1 - a1 * b2;
    assert b1 * (b2 - a2) - b2 * (b1 - a1) == a1 * b2 - a2 * b1;
    assert (b1 - a1) * (-a2) - (b2 - a2) * (-a1) == a1 * b2 - a2 * b1;
    assert (b1 - a1) * b2 - (b2 - a2) * b1 == a2 * b1 - a1 * b2;
    assert (-a1) * (b2 - a2) - (-a2) * (b1 - a1) == a2 * b1 - a1 * b2;
  }

  /** w along UAxis crossed with h along VAxis: w * h along the sweep axis,
      negative for the x axis, whose in-plane axes (z, y) are the
      left-handed pair. */
  lemma AxisCross(axis: int, w: int, h: int)
    requires IsAxis(axis)
    ensures Cross(Zero().Set(UAxis(axis), w), Zero().Set(VAxis(axis), h))
      == Zero().Set(axis, if axis == 0 then -(w * h) else w * h)
  {
  }

  /** Both triangles of every quad wind the same way relative to its
      normal: the cross product of a triangle's two edges from its first
      vertex is the face normal times -(w * h), whichever diagonal
      decideTriDir picks. This is what the "flipped" index lists and the
      sign reversal for the x axis in addIndexValues achieve. */
  lemma Winding(f: Face, triDir: bool, t: int)
    requires 0 <= f.dir < 6 && 0 <= t < 2
    ensures var q := QuadCorners(f);
      var list := IndexLists[ListChoice(FaceAxis(f.dir), FaceSign(f.dir), triDir)];
      Cross(Sub(q[list[3 * t + 1]], q[list[3 * t]]), Sub(q[list[3 * t + 2]], q[list[3 * t]]))
        == Scale(NormalVector(f.dir), -(f.w * f.h))
  {
    var axis := FaceAxis(f.dir);
    var du := Zero().Set(UAxis(axis), f.w);
    var dv := Zero().Set(VAxis(axis), f.h);
    var ci := ListChoice(axis, FaceSign(f.dir), triDir);
    assert QuadCorners(f) == Corners4(Vec3(f.i, f.j, f.k), du, dv);
    TriangleCross(Vec3(f.i, f.j, f.k), du, dv, ci, t);
    AxisCross(axis, f.w, f.h);
    NormalTimes(f.dir, ci, -(f.w * f.h));
  }

  /** The face normal scaled by m, written out per direction; ci is the
      index list addIndexValues picks for that direction. */
  lemma NormalTimes(dir: int, ci: int, m: int)
    requires 0 <= dir < 6
    requires ci % 2 == (if (if FaceAxis(dir) == 0 then -FaceSign(dir) else FaceSign(dir)) < 0 then 0 else 1)
    ensures var axis := FaceAxis(dir);
      Scale(NormalVector(dir), m)
        == if ci % 2 == 0 then Zero().Set(axis, if axis == 0 then m else -m)
           else Zero().Set(axis, if axis == 0 then -m else m)
  {
    assert FaceAxis(dir) == dir / 2;
    if dir == 0 {
    } else if dir == 1 {
    } else if dir == 2 {
    } else if dir == 3 {
    } else if dir == 4 {
    } else {
    }
  }

  /** addIndexValues' six indices name vertices of quad faceNum only, the
      vertices 4 * faceNum .. 4 * faceNum + 3 that addPositionValues wrote;
      each triangle has three distinct vertices, together they use all
      four, and both contain the diagonal decideTriDir chose: vertices 0
      and 2 (corners A and C) for true, 1 and 3 (corners D and B) for false. */
  lemma IndexBlockVertices(faceNum: int, axis: int, sign: int, triDir: bool)
    ensures var r := IndexBlock(faceNum, axis, sign, triDir);
      var base := 4 * faceNum;
      && (forall t :: 0 <= t < 6 ==> base <= r[t] < base + 4)
      && {r[0], r[1], r[2], r[3], r[4], r[5]} == {base, base + 1, base + 2, base + 3}
      && r[0] != r[1] && r[1] != r[2] && r[0] != r[2]
      && r[3] != r[4] && r[4] != r[5] && r[3] != r[5]
      && var (p, q) := if triDir then (base, base + 2) else (base + 1, base + 3);
         p in r[..3] && q in r[..3] && p in r[3..] && q in r[3..]
  {
    var r := IndexBlock(faceNum, axis, sign, triDir);
    var b := 4 * faceNum;
    var ci := ListChoice(axis, sign, triDir);
    assert triDir <==> ci < 2;
    if ci == 0 {
      assert r == [b, b + 1, b + 2, b, b + 2, b + 3];
    } else if ci == 1 {
      assert r == [b, b + 2, b + 1, b, b + 3, b + 2];
    } else if ci == 2 {
      assert r == [b + 1, b + 2, b + 3, b + 1, b + 3, b];
    } else {
      assert r == [b + 1, b + 3, b + 2, b + 1, b, b + 3];
    }
  }

  // -------------------------------------------------------------- colours

  /** With AO, vertex n of a quad takes the colour of the AO corner at the
      same corner (VertexU(n), VertexV(n)) of the quad: the slot order
      A, D, C, B of pushMeshColors follows the vertex order of
      addPositionValues. Without AO every vertex has the material colour. */
  lemma VertexColor(mb: MeshBuilder, f: Face, n: int)
    requires mb.Valid() && 0 <= n < 4
    ensures var col := MatColor(mb.matColorLookup, f.matID);
      var level := CornerAt(UnpackAOMask(f.ao), VertexU(n), VertexV(n));
      IsLevel(level)
      && mb.ColorBlock(f)[4 * n..4 * n + 4]
        == if mb.doAO then Shade(col, Multiplier(level, mb.aoVals, mb.revAoVal)) else Plain(col)
  {
    var col := MatColor(mb.matColorLookup, f.matID);
    var r := mb.ColorBlock(f);
    if mb.doAO {
      var cs := UnpackAOMask(f.ao);
      var S := (l: int) requires IsLevel(l) => Shade(col, Multiplier(l, mb.aoVals, mb.revAoVal));
      assert r == S(cs.a) + S(cs.d) + S(cs.c) + S(cs.b);
      if n == 0 {
        assert r[0..4] == S(cs.a);
      } else if n == 1 {
        assert r[4..8] == S(cs.d);
      } else if n == 2 {
        assert r[8..12] == S(cs.c);
      } else {
        assert r[12..16] == S(cs.b);
      }
    } else {
      assert r[4 * n..4 * n + 4] == Plain(col);
    }
  }

  /** The AO corner at (VertexU(n), VertexV(n)) is the one packAOMask
      computed from the voxels in direction (2 VertexU(n) - 1,
      2 VertexV(n) - 1) of the mask cell: the vertex at (j + w, k) of a quad
      takes the occlusion of the voxels at j + 1, k - 1 of its first cell. */
  lemma VertexCorner(isSolid: (int, int, int) -> bool, ipos: int, ineg: int, j: int, k: int,
                     skipReverse: bool, n: int)
    requires 0 <= n < 4
    ensures CornerAt(AOLevels(isSolid, ipos, ineg, j, k, skipReverse), VertexU(n), VertexV(n))
      == CornerLevel(isSolid, ipos, ineg, j, k, 2 * VertexU(n) - 1, 2 * VertexV(n) - 1, skipReverse)
  {
  }

  // ---------------------------------------------------------------- groups

  /** The arrays of one terrain group have the sizes createMeshData
      allocates: nf * 12 positions and normals, nf * 6 indices, nf * 16
      colours and, when the group uses the atlas, nf * 4 atlas indices. */
  lemma GroupSizes(mb: MeshBuilder, fd: MeshedFaceData, requestID: int)
    requires mb.Valid() && fd.Valid() && mb.Covers(fd.Faces())
    ensures var md := mb.GroupMesh(fd, requestID);
      var nf := fd.numFaces;
      && |md.positions| == 12 * nf && |md.normals| == 12 * nf
      && |md.indices| == 6 * nf && |md.colors| == 16 * nf
      && (md.atlasIndexes.Some? <==> mb.UsesAtlas(fd))
      && (md.atlasIndexes.Some? ==> |md.atlasIndexes.value| == 4 * nf)
  {
    var faces := fd.Faces();
    FlattenLength(PositionBlocks(faces), 12);
    FlattenLength(NormalBlocks(faces), 12);
    FlattenLength(mb.IndexBlocks(faces), 6);
    FlattenLength(mb.ColorBlocks(faces), 16);
    FlattenLength(mb.AtlasBlocks(faces), 4);
  }

  /** Quad g of a group: its four vertices at positions 12 g .. 12 g + 11,
      its normal at each of the four vertices' normals, and its two
      triangles at indices 6 g .. 6 g + 5. */
  lemma GroupGeometry(mb: MeshBuilder, fd: MeshedFaceData, requestID: int, g: int)
    requires mb.Valid() && fd.Valid() && mb.Covers(fd.Faces()) && 0 <= g < fd.numFaces
    ensures var md := mb.GroupMesh(fd, requestID);
      var f := fd.FaceAt(g);
      && 12 * g + 12 <= |md.positions| && md.positions[12 * g..12 * g + 12] == Coords(QuadCorners(f))
      && 12 * g + 12 <= |md.normals| && md.normals[12 * g..12 * g + 12] == NormalBlock(f.dir)
      && 6 * g + 6 <= |md.indices|
      && md.indices[6 * g..6 * g + 6] == IndexBlock(g, FaceAxis(f.dir), FaceSign(f.dir), FaceTriDir(f))
  {
    var faces := fd.Faces();
    assert faces[g] == fd.FaceAt(g);
    FlattenBlock(PositionBlocks(faces), 12, g);
    FlattenBlock(NormalBlocks(faces), 12, g);
    FlattenBlock(mb.IndexBlocks(faces), 6, g);
    PositionBlocksAt(faces, g);
    NormalBlocksAt(faces, g);
    mb.IndexBlocksAt(faces, g);
  }

  /** Quad g of a group: its sixteen colour values at 16 g and, when the
      group uses the atlas, its material's atlas index at 4 g .. 4 g + 3. */
  lemma GroupColors(mb: MeshBuilder, fd: MeshedFaceData, requestID: int, g: int)
    requires mb.Valid() && fd.Valid() && mb.Covers(fd.Faces()) && 0 <= g < fd.numFaces
    ensures var md := mb.GroupMesh(fd, requestID);
      var f := fd.FaceAt(g);
      && 16 * g + 16 <= |md.colors| && md.colors[16 * g..16 * g + 16] == mb.ColorBlock(f)
      && (md.atlasIndexes.Some? ==>
            4 * g + 4 <= |md.atlasIndexes.value| && md.atlasIndexes.value[4 * g..4 * g + 4] == mb.AtlasBlock(f))
  {
    var faces := fd.Faces();
    assert faces[g] == fd.FaceAt(g);
    FlattenBlock(mb.ColorBlocks(faces), 16, g);
    FlattenBlock(mb.AtlasBlocks(faces), 4, g);
    mb.ColorBlocksAt(faces, g);
    mb.AtlasBlocksAt(faces, g);
  }

  /** Index t of quad g names one of the quad's own four vertices. */
  lemma GroupIndexAt(mb: MeshBuilder, fd: MeshedFaceData, requestID: int, g: int, t: int)
    requires mb.Valid() && fd.Valid() && mb.Covers(fd.Faces()) && 0 <= g < fd.numFaces && 0 <= t < 6
    ensures var md := mb.GroupMesh(fd, requestID);
      6 * g + t < |md.indices| && 4 * g <= md.indices[6 * g + t] < 4 * g + 4
  {
    var faces := fd.Faces();
    var f := faces[g];
    FlattenAt(mb.IndexBlocks(faces), 6, g, t);
    mb.IndexBlocksAt(faces, g);
    IndexBlockVertices(g, FaceAxis(f.dir), FaceSign(f.dir), FaceTriDir(f));
  }

  /** Every triangle index of a group names one of its vertices: an index
      below nf * 4, the number of vertices (positions / 3), and within the
      four vertices of the quad whose block it is in. */
  lemma GroupIndicesInRange(mb: MeshBuilder, fd: MeshedFaceData, requestID: int)
    requires mb.Valid() && fd.Valid() && mb.Covers(fd.Faces())
    ensures var md := mb.GroupMesh(fd, requestID);
      && 3 * (4 * fd.numFaces) == |md.positions|
      && forall n :: 0 <= n < |md.indices| ==> 4 * (n / 6) <= md.indices[n] < 4 * (n / 6) + 4 <= 4 * fd.numFaces
  {
    var md := mb.GroupMesh(fd, requestID);
    GroupSizes(mb, fd, requestID);
    forall n | 0 <= n < |md.indices|
      ensures 4 * (n / 6) <= md.indices[n] < 4 * (n / 6) + 4 <= 4 * fd.numFaces
    {
      var g, t := n / 6, n % 6;
      assert 6 * g + t == n && g < fd.numFaces;
      GroupIndexAt(mb, fd, requestID, g, t);
    }
  }
}
