/** The integer side of MeshBuilder.createMeshData (terrainMesher.js
    1122-1330): for each terrain group of a faceDataSet, the vertex
    positions, normals and triangle indices of its quads, the colour
    multiplier each vertex takes from its corner's AO level, and the texture
    atlas index of each vertex. Colours are products of reals here; the
    Float32 rounding of the typed arrays and the UV coordinates are not part
    of this model. */
module Builder {
  import opened Common
  import opened AO
  import opened FaceData
  import opened Quads

  /** Sequences of blocks laid end to end: the buffer a loop fills by
      writing block f at offset f * (block length). */
  function Flatten<T>(blocks: seq<seq<T>>): seq<T>
  {
    if |blocks| == 0 then [] else Flatten(blocks[..|blocks| - 1]) + blocks[|blocks| - 1]
  }

  /** Blocks of K elements flatten to K elements each. */
  lemma {:induction false} FlattenLength<T>(blocks: seq<seq<T>>, K: nat)
    requires forall g :: 0 <= g < |blocks| ==> |blocks[g]| == K
    ensures |Flatten(blocks)| == K * |blocks|
  {
    if |blocks| > 0 {
      FlattenLength(blocks[..|blocks| - 1], K);
    }
  }

  /** Element t of block g lands at K * g + t of the flattened buffer. */
  lemma {:induction false} FlattenAt<T>(blocks: seq<seq<T>>, K: nat, g: int, t: int)
    requires forall g :: 0 <= g < |blocks| ==> |blocks[g]| == K
    requires 0 <= g < |blocks| && 0 <= t < K
    ensures K * g + t < |Flatten(blocks)| && Flatten(blocks)[K * g + t] == blocks[g][t]
  {
    var n := |blocks| - 1;
    FlattenLength(blocks[..n], K);
    FlattenLength(blocks, K);
    if g < n {
      FlattenAt(blocks[..n], K, g, t);
      MulMono(g + 1, n, K);
    }
  }

  /** Block g occupies K * g .. K * g + K of the flattened buffer. */
  lemma {:induction false} FlattenBlock<T>(blocks: seq<seq<T>>, K: nat, g: int)
    requires forall g :: 0 <= g < |blocks| ==> |blocks[g]| == K
    requires 0 <= g < |blocks|
    ensures K * g + K <= |Flatten(blocks)| && Flatten(blocks)[K * g..K * g + K] == blocks[g]
  {
    var n := |blocks| - 1;
    var pre := blocks[..n];
    var F, P := Flatten(blocks), Flatten(pre);
    FlattenLength(pre, K);
    assert F == P + blocks[n];
    if g < n {
      FlattenBlock(pre, K, g);
      MulNonNegative(K, g);
      SliceOfPrefix(P, blocks[n], K * g, K * g + K);
    } else {
      assert K * g == |P|;
    }
  }

  lemma MulNonNegative(a: nat, b: nat)
    ensures 0 <= a * b
  {
  }

  lemma SliceOfPrefix<T>(A: seq<T>, B: seq<T>, i: int, j: int)
    requires 0 <= i <= j <= |A|
    ensures (A + B)[i..j] == A[i..j]
  {
  }

  /** Adding one more block extends the flattened buffer by it. */
  lemma FlattenSnoc<T>(blocks: seq<seq<T>>, f: int)
    requires 0 <= f < |blocks|
    ensures Flatten(blocks[..f + 1]) == Flatten(blocks[..f]) + blocks[f]
  {
    assert blocks[..f + 1][..f] == blocks[..f];
  }

  // ---------------------------------------------------------------- faces

  /** `(materialDir / 2) | 0`: division truncating toward zero. */
  function FaceAxis(materialDir: int): int
  {
    if materialDir >= 0 then materialDir / 2 else -((-materialDir) / 2)
  }

  /** `(materialDir % 2) ? -1 : 1`: odd directions face the negative way. */
  function FaceSign(materialDir: int): int
  {
    if materialDir % 2 != 0 then -1 else 1
  }

  function Add(p: Vec3, q: Vec3): Vec3
  {
    Vec3(p.x + q.x, p.y + q.y, p.z + q.z)
  }

  function Zero(): Vec3
  {
    Vec3(0, 0, 0)
  }

  /** The four vertices addPositionValues writes for a quad at `loc`: `loc`,
      `loc + du`, `loc + du + dv`, `loc + dv`, where du is w along axis
      `(axis === 2) ? 0 : 2` and dv is h along `(axis === 1) ? 0 : 1`. */
  function Quad(loc: Vec3, axis: int, w: int, h: int): (r: seq<Vec3>)
    ensures |r| == 4
  {
    var du := Zero().Set(if axis == 2 then 0 else 2, w);
    var dv := Zero().Set(if axis == 1 then 0 else 1, h);
    [loc, Add(loc, du), Add(Add(loc, du), dv), Add(loc, dv)]
  }

  function QuadCorners(f: Face): (r: seq<Vec3>)
    ensures |r| == 4
  {
    Quad(Vec3(f.i, f.j, f.k), FaceAxis(f.dir), f.w, f.h)
  }

  /** Twelve position values, vertex after vertex, x y z. */
  function Coords(q: seq<Vec3>): (r: seq<int>)
    requires |q| == 4
    ensures |r| == 12
  {
    seq(12, t requires 0 <= t < 12 => q[t / 3].Get(t % 3))
  }

  function PositionBlock(f: Face): (r: seq<int>)
    ensures |r| == 12
  {
    Coords(QuadCorners(f))
  }

  /** `norms[axis] = dir`: the unit vector of the face's direction (an axis
      outside 0..2 leaves all three components 0). */
  function NormalVector(materialDir: int): Vec3
  {
    var axis := FaceAxis(materialDir);
    if IsAxis(axis) then Zero().Set(axis, FaceSign(materialDir)) else Zero()
  }

  /** addNormalValues: `norms[i % 3]` for i in 0..11, the same normal at all
      four vertices. */
  function NormalBlock(materialDir: int): (r: seq<int>)
    ensures |r| == 12
  {
    seq(12, t requires 0 <= t < 12 => NormalVector(materialDir).Get(t % 3))
  }

  /** `indexLists`: two triangles over the four vertices of a quad; the
      first two split along vertices 0-2, the last two along 1-3, and each
      second list winds the other way. */
  const IndexLists: seq<seq<int>> := [
    [0, 1, 2, 0, 2, 3],
    [0, 2, 1, 0, 3, 2],
    [1, 2, 3, 1, 3, 0],
    [1, 3, 2, 1, 0, 3]
  ]

  /** decideTriDir: true splits the quad along the A-C diagonal (vertices
      0 and 2), false along B-D. */
  function DecideTriDir(A: int, B: int, C: int, D: int): (r: bool)
    ensures A == C && B != D ==> r
    ensures A != C && B == D ==> !r
    ensures A != C && B != D ==> (r <==> A + C > B + D)
    ensures A == C && B == D ==> (r <==> B == 2)
  {
    if A == C then (if D == B then D == 2 else true)
    else (if D == B then false else A + C > D + B)
  }

  /** Which of indexLists addIndexValues picks. */
  function ListChoice(axis: int, sign: int, triDir: bool): (ix: int)
    ensures 0 <= ix < 4
  {
    var s := if axis == 0 then -sign else sign;
    (if s < 0 then 0 else 1) + (if triDir then 0 else 2)
  }

  /** addIndexValues: the chosen list offset by `faceNum * 4`, the index of
      the quad's first vertex. */
  function IndexBlock(faceNum: int, axis: int, sign: int, triDir: bool): (r: seq<int>)
    ensures |r| == 6
  {
    var list := IndexLists[ListChoice(axis, sign, triDir)];
    seq(6, t requires 0 <= t < 6 => 4 * faceNum + list[t])
  }

  // --------------------------------------------------------------- colours

  datatype Color = Color(r: real, g: real, b: real)

  /** `matColorLookup[matID] || white`. */
  function MatColor(lookup: seq<Option<Color>>, matID: int): Color
  {
    if 0 <= matID < |lookup| && lookup[matID].Some? then lookup[matID].value else Color(1.0, 1.0, 1.0)
  }

  /** pushAOColor's multiplier: `revAoVal` for level 0, `aoVals[ao - 1]`
      otherwise. */
  function Multiplier(level: int, aoVals: seq<real>, revAoVal: real): real
    requires IsLevel(level) && |aoVals| >= 3
  {
    if level == 0 then revAoVal else aoVals[level - 1]
  }

  /** One vertex colour: the base colour scaled by `mult`, alpha 1. */
  function Shade(col: Color, mult: real): (r: seq<real>)
    ensures |r| == 4
  {
    [col.r * mult, col.g * mult, col.b * mult, 1.0]
  }

  /** pushMeshColors' sixteen values: the shaded colour of corners A, D, C
      and B in turn. */
  function AOBlock(col: Color, cs: Corners, aoVals: seq<real>, revAoVal: real): (r: seq<real>)
    requires AllLevels(cs) && |aoVals| >= 3
    ensures |r| == 16
  {
    Shade(col, Multiplier(cs.a, aoVals, revAoVal)) + Shade(col, Multiplier(cs.d, aoVals, revAoVal))
      + Shade(col, Multiplier(cs.c, aoVals, revAoVal)) + Shade(col, Multiplier(cs.b, aoVals, revAoVal))
  }

  /** One vertex colour without AO: the base colour, alpha 1. */
  function Plain(col: Color): (r: seq<real>)
    ensures |r| == 4
  {
    [col.r, col.g, col.b, 1.0]
  }

  /** pushMeshColors_noAO: the base colour at all four vertices. */
  function PlainBlock(col: Color): (r: seq<real>)
    ensures |r| == 16
  {
    seq(16, q requires 0 <= q < 16 => Plain(col)[q % 4])
  }

  /** The AO corner at (a, b) of the unit square, a along the quad's width
      and b along its height: A(0, 0), D(1, 0), C(1, 1), B(0, 1). */
  function CornerAt(cs: Corners, a: int, b: int): int
  {
    if a == 0 then (if b == 0 then cs.a else cs.b) else (if b == 0 then cs.d else cs.c)
  }

  /** Unit-square position of vertex n of QuadCorners. */
  function VertexU(n: int): int
  {
    if n == 1 || n == 2 then 1 else 0
  }

  function VertexV(n: int): int
  {
    if n == 2 || n == 3 then 1 else 0
  }

  // ------------------------------------------------------------- builder

  /** The arrays createMeshData builds for one terrain group (UVs are not
      part of this model). */
  datatype MeshData = MeshData(
    positions: seq<int>,
    indices: seq<int>,
    normals: seq<int>,
    colors: seq<real>,
    atlasIndexes: Option<seq<int>>,
    requestID: int,
    terrainID: int
  )

  /** MeshBuilder's settings: AO on or off, the AO multipliers, and the
      registry's material lookups. */
  datatype MeshBuilder = MeshBuilder(
    doAO: bool,
    aoVals: seq<real>,
    revAoVal: real,
    atlasIndexLookup: seq<int>,
    matColorLookup: seq<Option<Color>>
  )
  {
    predicate Valid()
    {
      |aoVals| >= 3
    }

    /** The registry has an atlas index for the material of every quad. */
    predicate Covers(faces: seq<Face>)
    {
      forall g :: 0 <= g < |faces| ==> 0 <= faces[g].matID < |atlasIndexLookup|
    }

    /** `atlasIndexLookup[faceData.matIDs[0]] >= 0`; an index past the
        lookup reads `undefined`, which is not >= 0. */
    predicate UsesAtlas(fd: MeshedFaceData)
    {
      |fd.matIDs| > 0 && 0 <= fd.matIDs[0] < |atlasIndexLookup| && atlasIndexLookup[fd.matIDs[0]] >= 0
    }

    /** pushMeshColors (slots A, D, C, B) with AO, pushMeshColors_noAO without. */
    function ColorBlock(f: Face): (r: seq<real>)
      requires Valid()
      ensures |r| == 16
    {
      var col := MatColor(matColorLookup, f.matID);
      if doAO then
        AOBlock(col, UnpackAOMask(f.ao), aoVals, revAoVal)
      else PlainBlock(col)
    }

    /** addAtlasIndices: the material's atlas index at all four vertices. */
    function AtlasBlock(f: Face): (r: seq<int>)
      requires 0 <= f.matID < |atlasIndexLookup|
      ensures |r| == 4
    {
      var ix := atlasIndexLookup[f.matID];
      [ix, ix, ix, ix]
    }

    /** The triangle indices of quad g. */
    function FaceIndexBlock(g: int, f: Face): (r: seq<int>)
      ensures |r| == 6
    {
      IndexBlock(g, FaceAxis(f.dir), FaceSign(f.dir), FaceTriDir(f))
    }

    /** The triangle indices of every quad, quad g's at g. */
    function IndexBlocks(faces: seq<Face>): (r: seq<seq<int>>)
      ensures |r| == |faces| && forall g :: 0 <= g < |r| ==> |r[g]| == 6
    {
      if |faces| == 0 then []
      else IndexBlocks(faces[..|faces| - 1]) + [FaceIndexBlock(|faces| - 1, faces[|faces| - 1])]
    }

    lemma {:induction false} IndexBlocksAt(faces: seq<Face>, g: int)
      requires 0 <= g < |faces|
      ensures IndexBlocks(faces)[g] == FaceIndexBlock(g, faces[g])
    {
      var n := |faces| - 1;
      if g < n {
        IndexBlocksAt(faces[..n], g);
      }
    }

    /** The colours of every quad. */
    function ColorBlocks(faces: seq<Face>): (r: seq<seq<real>>)
      requires Valid()
      ensures |r| == |faces| && forall g :: 0 <= g < |r| ==> |r[g]| == 16
    {
      if |faces| == 0 then []
      else ColorBlocks(faces[..|faces| - 1]) + [ColorBlock(faces[|faces| - 1])]
    }

    lemma {:induction false} ColorBlocksAt(faces: seq<Face>, g: int)
      requires Valid() && 0 <= g < |faces|
      ensures ColorBlocks(faces)[g] == ColorBlock(faces[g])
    {
      var n := |faces| - 1;
      if g < n {
        ColorBlocksAt(faces[..n], g);
      }
    }

    /** The atlas indices of every quad. */
    function AtlasBlocks(faces: seq<Face>): (r: seq<seq<int>>)
      requires Covers(faces)
      ensures |r| == |faces| && forall g :: 0 <= g < |r| ==> |r[g]| == 4
    {
      if |faces| == 0 then []
      else AtlasBlocks(faces[..|faces| - 1]) + [AtlasBlock(faces[|faces| - 1])]
    }

    lemma {:induction false} AtlasBlocksAt(faces: seq<Face>, g: int)
      requires Covers(faces) && 0 <= g < |faces|
      ensures AtlasBlocks(faces)[g] == AtlasBlock(faces[g])
    {
      var n := |faces| - 1;
      if g < n {
        AtlasBlocksAt(faces[..n], g);
      }
    }

    /** What createMeshData builds for one group: block g of each array
        comes from quad g. */
    function GroupMesh(fd: MeshedFaceData, requestID: int): (md: MeshData)
      requires Valid() && fd.Valid() && Covers(fd.Faces())
    {
      var faces := fd.Faces();
      MeshData(
        Flatten(PositionBlocks(faces)),
        Flatten(IndexBlocks(faces)),
        Flatten(NormalBlocks(faces)),
        Flatten(ColorBlocks(faces)),
        if UsesAtlas(fd) then Some(Flatten(AtlasBlocks(faces))) else None,
        requestID,
        fd.terrainID)
    }

    /** Every MeshData is the GroupMesh of a terrain group of `fds`. */
    ghost predicate GroupMeshes(datas: seq<MeshData>, fds: map<int, MeshedFaceData>, requestID: int)
    {
      forall n :: 0 <= n < |datas| ==>
        var t := datas[n].terrainID;
        t in fds && Valid() && fds[t].Valid() && Covers(fds[t].Faces()) && datas[n] == GroupMesh(fds[t], requestID)
    }

    /** createMeshData: one MeshData per terrain group of the faceDataSet,
        each group exactly once. The order of `for (var key in
        faceDataSet)` is not stated. */
    method CreateMeshData(faceDataSet: map<int, MeshedFaceData>, requestID: int) returns (datas: seq<MeshData>)
      requires Valid() && ValidSet(faceDataSet)
      requires forall t :: t in faceDataSet ==> Covers(faceDataSet[t].Faces())
      ensures |datas| == |faceDataSet|
      ensures forall n :: 0 <= n < |datas| ==>
        datas[n].terrainID in faceDataSet && datas[n] == GroupMesh(faceDataSet[datas[n].terrainID], requestID)
      ensures forall n, m :: 0 <= n < m < |datas| ==> datas[n].terrainID != datas[m].terrainID
      ensures forall t :: t in faceDataSet <==> t in TerrainIDs(datas)
    {
      datas := [];
      var keys := faceDataSet.Keys;
      while keys != {}
        invariant Built(datas, keys, faceDataSet, requestID)
        decreases |keys|
      {
        var key := PickKey(keys);
        var md := BuildGroup(faceDataSet[key], requestID);
        BuiltStep(datas, keys, faceDataSet, requestID, key, md);
        datas := datas + [md];
        keys := keys - {key};
      }
    }

    /** The loop over keys so far: one MeshData per group no longer in
        `keys`, in the order they were taken. */
    ghost predicate Built(datas: seq<MeshData>, keys: set<int>, fds: map<int, MeshedFaceData>, requestID: int)
    {
      && keys <= fds.Keys && |datas| + |keys| == |fds|
      && (forall n :: 0 <= n < |datas| ==> datas[n].terrainID !in keys)
      && GroupMeshes(datas, fds, requestID)
      && (forall n, m :: 0 <= n < m < |datas| ==> datas[n].terrainID != datas[m].terrainID)
      && (forall t :: t in fds ==> t in keys || t in TerrainIDs(datas))
    }

    /** Taking one more key keeps Built. */
    lemma BuiltStep(datas: seq<MeshData>, keys: set<int>, fds: map<int, MeshedFaceData>, requestID: int,
                    key: int, md: MeshData)
      requires Built(datas, keys, fds, requestID) && key in keys
      requires Valid() && fds[key].Valid() && Covers(fds[key].Faces()) && fds[key].terrainID == key
      requires md == GroupMesh(fds[key], requestID)
      ensures Built(datas + [md], keys - {key}, fds, requestID)
    {
      var datas' := datas + [md];
      assert TerrainIDs(datas') == TerrainIDs(datas) + [key];
      assert forall n :: 0 <= n < |datas| ==> datas'[n] == datas[n];
    }

    /** The body of the loop over keys: every array sized for `numFaces`
        quads and filled quad after quad. */
    method BuildGroup(fd: MeshedFaceData, requestID: int) returns (md: MeshData)
      requires Valid() && fd.Valid() && Covers(fd.Faces())
      ensures md == GroupMesh(fd, requestID)
    {
      var usesAtlas := UsesAtlas(fd);
      var nf := fd.numFaces;
      var indices := new int[nf * 6];
      var positions := new int[nf * 12];
      var normals := new int[nf * 12];
      var colors := new real[nf * 16];
      var atlasIndexes := new int[if usesAtlas then nf * 4 else 0];
      FillGroup(fd, positions, indices, normals, colors, atlasIndexes, usesAtlas);
      Assembled(fd, requestID, positions[..], indices[..], normals[..], colors[..], atlasIndexes[..], usesAtlas);
      md := MeshData(positions[..], indices[..], normals[..], colors[..],
                     if usesAtlas then Some(atlasIndexes[..]) else None, requestID, fd.terrainID);
    }

    /** `for (var f = 0; f < faceData.numFaces; f++)`: every quad of the
        group into the arrays, in order. */
    method FillGroup(fd: MeshedFaceData, positions: array<int>, indices: array<int>, normals: array<int>,
                     colors: array<real>, atlasIndexes: array<int>, usesAtlas: bool)
      requires Valid() && fd.Valid() && Covers(fd.Faces())
      requires positions.Length == fd.numFaces * 12 && indices.Length == fd.numFaces * 6
      requires normals.Length == fd.numFaces * 12 && colors.Length == fd.numFaces * 16
      requires usesAtlas ==> atlasIndexes.Length == fd.numFaces * 4
      requires positions != normals && indices != atlasIndexes && indices != positions && indices != normals
      requires atlasIndexes != positions && atlasIndexes != normals
      modifies positions, indices, normals, colors, atlasIndexes
      ensures Filled(fd.Faces(), positions[..], indices[..], normals[..], colors[..], atlasIndexes[..], usesAtlas,
                     fd.numFaces)
    {
      ghost var faces := fd.Faces();
      var f := 0;
      while f < fd.numFaces
        invariant 0 <= f <= fd.numFaces
        // compared with true so that the invariant is checked as one fact
        invariant Filled(faces, positions[..], indices[..], normals[..], colors[..], atlasIndexes[..], usesAtlas, f) == true
      {
        var face := fd.FaceAt(f);
        assert face == faces[f];
        FillFace(positions, indices, normals, colors, atlasIndexes, usesAtlas, faces, f, face);
        f := f + 1;
      }
    }

    /** The arrays after quads 0..f-1 of the group: each holds their blocks
        at its start (the atlas array only when the group uses it). */
    ghost predicate Filled(faces: seq<Face>, P: seq<int>, I: seq<int>, N: seq<int>, C: seq<real>, A: seq<int>,
                           usesAtlas: bool, f: int)
    {
      && Valid() && Covers(faces)
      && Prefix(P, PositionBlocks(faces), 12, f)
      && Prefix(I, IndexBlocks(faces), 6, f)
      && Prefix(N, NormalBlocks(faces), 12, f)
      && Prefix(C, ColorBlocks(faces), 16, f)
      && (usesAtlas ==> Prefix(A, AtlasBlocks(faces), 4, f))
    }

    /** Arrays of exactly numFaces blocks, filled with all of them, are the
        group's mesh. */
    lemma Assembled(fd: MeshedFaceData, requestID: int, P: seq<int>, I: seq<int>, N: seq<int>, C: seq<real>,
                    A: seq<int>, usesAtlas: bool)
      requires Valid() && fd.Valid() && Covers(fd.Faces()) && usesAtlas == UsesAtlas(fd)
      requires |P| == fd.numFaces * 12 && |I| == fd.numFaces * 6 && |N| == fd.numFaces * 12
      requires |C| == fd.numFaces * 16 && |A| == if usesAtlas then fd.numFaces * 4 else 0
      requires Filled(fd.Faces(), P, I, N, C, A, usesAtlas, fd.numFaces)
      ensures MeshData(P, I, N, C, if usesAtlas then Some(A) else None, requestID, fd.terrainID)
        == GroupMesh(fd, requestID)
    {
      var faces := fd.Faces();
      Whole(PositionBlocks(faces), P, 12);
      Whole(IndexBlocks(faces), I, 6);
      Whole(NormalBlocks(faces), N, 12);
      Whole(ColorBlocks(faces), C, 16);
      if usesAtlas {
        Whole(AtlasBlocks(faces), A, 4);
      }
    }

    /** The body of the loop over faces: quad f's data goes into every
        array after that of quads 0..f-1. */
    method FillFace(positions: array<int>, indices: array<int>, normals: array<int>, colors: array<real>,
                    atlasIndexes: array<int>, usesAtlas: bool, ghost faces: seq<Face>, f: int, face: Face)
      requires 0 <= f < |faces| && face == faces[f]
      requires 12 * |faces| <= positions.Length && 6 * |faces| <= indices.Length
      requires 12 * |faces| <= normals.Length && 16 * |faces| <= colors.Length
      requires usesAtlas ==> 4 * |faces| <= atlasIndexes.Length
      requires positions != normals && indices != atlasIndexes && indices != positions && indices != normals
      requires atlasIndexes != positions && atlasIndexes != normals
      requires Filled(faces, positions[..], indices[..], normals[..], colors[..], atlasIndexes[..], usesAtlas, f)
      modifies positions, indices, normals, colors, atlasIndexes
      ensures Filled(faces, positions[..], indices[..], normals[..], colors[..], atlasIndexes[..], usesAtlas, f + 1)
    {
      var axis := FaceAxis(face.dir);
      var dir := FaceSign(face.dir);
      FillPositions(positions, faces, f, face, axis);
      var norms := [0, 0, 0];
      if 0 <= axis < 3 {
        norms := norms[axis := dir];
      }
      FillNormals(normals, faces, f, norms);
      var cs := UnpackAOMask(face.ao);
      var triDir := DecideTriDir(cs.a, cs.b, cs.c, cs.d);
      FillIndices(indices, faces, f, axis, dir, triDir);
      FillAtlas(atlasIndexes, usesAtlas, faces, f, face.matID);
      var matColor := MatColor(matColorLookup, face.matID);
      FillColors(colors, faces, f, matColor, cs);
    }

    /** addIndexValues for quad f of the group, after quads 0..f-1. */
    method FillIndices(indices: array<int>, ghost faces: seq<Face>, f: int, axis: int, dir: int, triDir: bool)
      requires 0 <= f < |faces| && 6 * |faces| <= indices.Length
      requires axis == FaceAxis(faces[f].dir) && dir == FaceSign(faces[f].dir)
      requires triDir == FaceTriDir(faces[f])
      requires Prefix(indices[..], IndexBlocks(faces), 6, f)
      modifies indices
      ensures Prefix(indices[..], IndexBlocks(faces), 6, f + 1)
    {
      ghost var pre := indices[..6 * f];
      AddIndexValues(indices, f, axis, dir, triDir);
      IndexBlocksAt(faces, f);
      FillStep(indices[..], IndexBlocks(faces), f, 6, pre);
    }

    /** `if (usesAtlas) addAtlasIndices(...)` for quad f of the group,
        after quads 0..f-1. */
    method FillAtlas(atlasIndexes: array<int>, usesAtlas: bool, ghost faces: seq<Face>, f: int, matID: int)
      requires 0 <= f < |faces| && matID == faces[f].matID && Covers(faces)
      requires usesAtlas ==> 4 * |faces| <= atlasIndexes.Length && Prefix(atlasIndexes[..], AtlasBlocks(faces), 4, f)
      modifies atlasIndexes
      ensures usesAtlas ==> Prefix(atlasIndexes[..], AtlasBlocks(faces), 4, f + 1)
    {
      if usesAtlas {
        ghost var pre := atlasIndexes[..4 * f];
        var atlasIndex := atlasIndexLookup[matID];
        AddAtlasIndices(atlasIndexes, f, atlasIndex);
        AtlasBlocksAt(faces, f);
        FillStep(atlasIndexes[..], AtlasBlocks(faces), f, 4, pre);
      }
    }

    /** The colours of quad f of the group, after quads 0..f-1: pushMeshColors
        with AO, pushMeshColors_noAO without. */
    method FillColors(colors: array<real>, ghost faces: seq<Face>, f: int, matColor: Color, cs: Corners)
      requires Valid() && 0 <= f < |faces| && 16 * |faces| <= colors.Length
      requires matColor == MatColor(matColorLookup, faces[f].matID) && cs == UnpackAOMask(faces[f].ao)
      requires Prefix(colors[..], ColorBlocks(faces), 16, f)
      modifies colors
      ensures Prefix(colors[..], ColorBlocks(faces), 16, f + 1)
    {
      ghost var pre := colors[..16 * f];
      if doAO {
        PushMeshColors(colors, f, matColor, cs);
      } else {
        PushMeshColorsNoAO(colors, f, matColor);
      }
      ColorBlocksAt(faces, f);
      FillStep(colors[..], ColorBlocks(faces), f, 16, pre);
    }

    /** pushMeshColors: the four vertex colours, corners A, D, C, B. */
    method PushMeshColors(colors: array<real>, faceNum: int, col: Color, cs: Corners)
      requires Valid() && AllLevels(cs) && 0 <= faceNum && 16 * faceNum + 16 <= colors.Length
      modifies colors
      ensures colors[..16 * faceNum + 16] == old(colors[..16 * faceNum]) + AOBlock(col, cs, aoVals, revAoVal)
    {
      var offset := faceNum * 16;
      ghost var pre := colors[..offset];
      PushAOColor(colors, offset, col, cs.a, aoVals, revAoVal);
      PushAOColor(colors, offset + 4, col, cs.d, aoVals, revAoVal);
      PushAOColor(colors, offset + 8, col, cs.c, aoVals, revAoVal);
      PushAOColor(colors, offset + 12, col, cs.b, aoVals, revAoVal);
      Append4(pre, Shade(col, Multiplier(cs.a, aoVals, revAoVal)), Shade(col, Multiplier(cs.d, aoVals, revAoVal)),
              Shade(col, Multiplier(cs.c, aoVals, revAoVal)), Shade(col, Multiplier(cs.b, aoVals, revAoVal)));
    }
  }

  /** The vertex positions of every quad. */
  function PositionBlocks(faces: seq<Face>): (r: seq<seq<int>>)
    ensures |r| == |faces| && forall g :: 0 <= g < |r| ==> |r[g]| == 12
  {
    if |faces| == 0 then []
    else PositionBlocks(faces[..|faces| - 1]) + [PositionBlock(faces[|faces| - 1])]
  }

  lemma {:induction false} PositionBlocksAt(faces: seq<Face>, g: int)
    requires 0 <= g < |faces|
    ensures PositionBlocks(faces)[g] == PositionBlock(faces[g])
  {
    var n := |faces| - 1;
    if g < n {
      PositionBlocksAt(faces[..n], g);
    }
  }

  /** The normals of every quad. */
  function NormalBlocks(faces: seq<Face>): (r: seq<seq<int>>)
    ensures |r| == |faces| && forall g :: 0 <= g < |r| ==> |r[g]| == 12
  {
    if |faces| == 0 then []
    else NormalBlocks(faces[..|faces| - 1]) + [NormalBlock(faces[|faces| - 1].dir)]
  }

  lemma {:induction false} NormalBlocksAt(faces: seq<Face>, g: int)
    requires 0 <= g < |faces|
    ensures NormalBlocks(faces)[g] == NormalBlock(faces[g].dir)
  {
    var n := |faces| - 1;
    if g < n {
      NormalBlocksAt(faces[..n], g);
    }
  }

  /** decideTriDir over the quad's unpacked AO corners. */
  function FaceTriDir(f: Face): bool
  {
    var cs := UnpackAOMask(f.ao);
    DecideTriDir(cs.a, cs.b, cs.c, cs.d)
  }

  /** addPositionValues for quad f of the group, after quads 0..f-1. */
  method FillPositions(positions: array<int>, ghost faces: seq<Face>, f: int, face: Face, axis: int)
    requires 0 <= f < |faces| && 12 * |faces| <= positions.Length
    requires face == faces[f] && axis == FaceAxis(face.dir)
    requires Prefix(positions[..], PositionBlocks(faces), 12, f)
    modifies positions
    ensures Prefix(positions[..], PositionBlocks(faces), 12, f + 1)
  {
    ghost var pre := positions[..12 * f];
    AddPositionValues(positions, f, face.i, face.j, face.k, axis, face.w, face.h);
    PositionBlocksAt(faces, f);
    FillStep(positions[..], PositionBlocks(faces), f, 12, pre);
  }

  /** addNormalValues for quad f of the group, after quads 0..f-1. */
  method FillNormals(normals: array<int>, ghost faces: seq<Face>, f: int, norms: seq<int>)
    requires 0 <= f < |faces| && 12 * |faces| <= normals.Length && |norms| == 3
    requires forall c :: 0 <= c < 3 ==> norms[c] == NormalVector(faces[f].dir).Get(c)
    requires Prefix(normals[..], NormalBlocks(faces), 12, f)
    modifies normals
    ensures Prefix(normals[..], NormalBlocks(faces), 12, f + 1)
  {
    ghost var pre := normals[..12 * f];
    AddNormalValues(normals, f, norms);
    assert seq(12, t requires 0 <= t < 12 => norms[t % 3]) == NormalBlock(faces[f].dir);
    NormalBlocksAt(faces, f);
    FillStep(normals[..], NormalBlocks(faces), f, 12, pre);
  }

  /** The terrain ID of each MeshData, in order. */
  function TerrainIDs(datas: seq<MeshData>): (r: seq<int>)
    ensures |r| == |datas| && forall n :: 0 <= n < |datas| ==> r[n] == datas[n].terrainID
  {
    seq(|datas|, n requires 0 <= n < |datas| => datas[n].terrainID)
  }

  /** Any element of a non-empty set: the next key of `for (var key in ...)`. */
  method PickKey(keys: set<int>) returns (key: int)
    requires keys != {}
    ensures key in keys
  {
    if forall k :: k !in keys {
      assert false;
    }
    key :| key in keys;
  }

  /** The first f blocks fill the start of `a`. */
  ghost predicate Prefix<T>(a: seq<T>, blocks: seq<seq<T>>, K: nat, f: int)
  {
    0 <= f <= |blocks| && K * f <= |a| && a[..K * f] == Flatten(blocks[..f])
  }

  /** Writing block f after the first f blocks fills the first f + 1. */
  lemma FillStep<T>(a: seq<T>, blocks: seq<seq<T>>, f: int, K: nat, pre: seq<T>)
    requires 0 <= f < |blocks| && |blocks[f]| == K && pre == Flatten(blocks[..f])
    requires K * f + K <= |a| && a[..K * f + K] == pre + blocks[f]
    ensures Prefix(a, blocks, K, f + 1)
  {
    FlattenSnoc(blocks, f);
  }

  /** A buffer of exactly all the blocks, filled with all of them, is
      their flattening. */
  lemma Whole<T>(blocks: seq<seq<T>>, a: seq<T>, K: nat)
    requires |a| == K * |blocks| && Prefix(a, blocks, K, |blocks|)
    ensures a == Flatten(blocks)
  {
    assert blocks[..|blocks|] == blocks;
  }

  lemma Append4<T>(pre: seq<T>, a: seq<T>, b: seq<T>, c: seq<T>, d: seq<T>)
    ensures (((pre + a) + b) + c) + d == pre + (a + b + c + d)
  {
  }

  /** A block written at `off` after an unchanged prefix extends it. */
  lemma Extend<T>(a: seq<T>, pre: seq<T>, off: int, B: seq<T>)
    requires 0 <= off && off + |B| <= |a| && a[..off] == pre && a[off..off + |B|] == B
    ensures a[..off + |B|] == pre + B
  {
  }

  /** addPositionValues: the quad's four vertices at `faceNum * 12`. */
  method AddPositionValues(posArr: array<int>, faceNum: int, i: int, j: int, k: int, axis: int, w: int, h: int)
    requires 0 <= faceNum && 12 * faceNum + 12 <= posArr.Length
    modifies posArr
    ensures posArr[..12 * faceNum + 12] == old(posArr[..12 * faceNum]) + Coords(Quad(Vec3(i, j, k), axis, w, h))
  {
    var offset := faceNum * 12;
    ghost var pre := posArr[..offset];
    ghost var q := Quad(Vec3(i, j, k), axis, w, h);
    var loc := [i, j, k];
    var du := [0, 0, 0];
    var dv := [0, 0, 0];
    du := du[(if axis == 2 then 0 else 2) := w];
    dv := dv[(if axis == 1 then 0 else 1) := h];
    var ix := 0;
    while ix < 3
      invariant 0 <= ix <= 3
      invariant posArr[..offset] == pre
      invariant forall c :: 0 <= c < ix ==>
        posArr[offset + c] == q[0].Get(c) && posArr[offset + 3 + c] == q[1].Get(c)
        && posArr[offset + 6 + c] == q[2].Get(c) && posArr[offset + 9 + c] == q[3].Get(c)
    {
      QuadCoord(Vec3(i, j, k), axis, w, h, ix);
      posArr[offset + ix] := loc[ix];
      posArr[offset + 3 + ix] := loc[ix] + du[ix];
      posArr[offset + 6 + ix] := loc[ix] + du[ix] + dv[ix];
      posArr[offset + 9 + ix] := loc[ix] + dv[ix];
      ix := ix + 1;
    }
    CoordsBlock(posArr[..], pre, offset, q);
  }

  /** Four vertices written coordinate by coordinate after an unchanged
      prefix extend it by their Coords. */
  lemma CoordsBlock(a: seq<int>, pre: seq<int>, off: int, q: seq<Vec3>)
    requires |q| == 4 && 0 <= off && off + 12 <= |a| && a[..off] == pre
    requires forall c :: 0 <= c < 3 ==>
      a[off + c] == q[0].Get(c) && a[off + 3 + c] == q[1].Get(c)
      && a[off + 6 + c] == q[2].Get(c) && a[off + 9 + c] == q[3].Get(c)
    ensures a[..off + 12] == pre + Coords(q)
  {
    var B := Coords(q);
    forall t | 0 <= t < 12
      ensures a[off + t] == B[t]
    {
      var n, c := t / 3, t % 3;
      assert t == 3 * n + c;
      assert B[t] == q[n].Get(c);
    }
    assert a[off..off + 12] == B;
  }

  /** Coordinate c of the four vertices of Quad: the start, then w along the
      first in-plane axis, then h along the second. */
  lemma QuadCoord(loc: Vec3, axis: int, w: int, h: int, c: int)
    requires 0 <= c < 3
    ensures var q := Quad(loc, axis, w, h);
      var du := if c == (if axis == 2 then 0 else 2) then w else 0;
      var dv := if c == (if axis == 1 then 0 else 1) then h else 0;
      q[0].Get(c) == loc.Get(c) && q[1].Get(c) == loc.Get(c) + du
      && q[2].Get(c) == loc.Get(c) + du + dv && q[3].Get(c) == loc.Get(c) + dv
  {
  }

  /** addNormalValues: `norms[i % 3]` at `faceNum * 12 + i`. */
  method AddNormalValues(normArr: array<int>, faceNum: int, norms: seq<int>)
    requires 0 <= faceNum && 12 * faceNum + 12 <= normArr.Length && |norms| == 3
    modifies normArr
    ensures normArr[..12 * faceNum + 12] == old(normArr[..12 * faceNum]) + seq(12, t requires 0 <= t < 12 => norms[t % 3])
  {
    var offset := faceNum * 12;
    ghost var pre := normArr[..offset];
    var t := 0;
    while t < 12
      invariant 0 <= t <= 12
      invariant normArr[..offset] == pre
      invariant forall s :: 0 <= s < t ==> normArr[offset + s] == norms[s % 3]
    {
      normArr[offset + t] := norms[t % 3];
      t := t + 1;
    }
    ghost var B := seq(12, t requires 0 <= t < 12 => norms[t % 3]);
    assert normArr[offset..offset + 12] == B;
    Extend(normArr[..], pre, offset, B);
  }

  /** addIndexValues: the chosen list, offset by the quad's first vertex,
      at `faceNum * 6`. */
  method AddIndexValues(indArr: array<int>, faceNum: int, axis: int, dir: int, triDir: bool)
    requires 0 <= faceNum && 6 * faceNum + 6 <= indArr.Length
    modifies indArr
    ensures indArr[..6 * faceNum + 6] == old(indArr[..6 * faceNum]) + IndexBlock(faceNum, axis, dir, triDir)
  {
    var offset := faceNum * 6;
    ghost var pre := indArr[..offset];
    var baseIndex := faceNum * 4;
    var sign := dir;
    if axis == 0 {
      sign := -sign;
    }
    var ix := if sign < 0 then 0 else 1;
    if !triDir {
      ix := ix + 2;
    }
    var indexVals := IndexLists[ix];
    var t := 0;
    while t < 6
      invariant 0 <= t <= 6
      invariant indArr[..offset] == pre
      invariant forall q :: 0 <= q < t ==> indArr[offset + q] == baseIndex + indexVals[q]
    {
      indArr[offset + t] := baseIndex + indexVals[t];
      t := t + 1;
    }
    ghost var B := IndexBlock(faceNum, axis, dir, triDir);
    assert indArr[offset..offset + 6] == B;
    Extend(indArr[..], pre, offset, B);
  }

  /** addAtlasIndices: the atlas index at all four vertices. */
  method AddAtlasIndices(indArr: array<int>, faceNum: int, atlasIndex: int)
    requires 0 <= faceNum && 4 * faceNum + 4 <= indArr.Length
    modifies indArr
    ensures indArr[..4 * faceNum + 4] == old(indArr[..4 * faceNum]) + [atlasIndex, atlasIndex, atlasIndex, atlasIndex]
  {
    var offset := faceNum * 4;
    ghost var pre := indArr[..offset];
    var t := 0;
    while t < 4
      invariant 0 <= t <= 4
      invariant indArr[..offset] == pre
      invariant forall q :: offset <= q < offset + t ==> indArr[q] == atlasIndex
    {
      indArr[offset + t] := atlasIndex;
      t := t + 1;
    }
    ghost var B := [atlasIndex, atlasIndex, atlasIndex, atlasIndex];
    assert indArr[offset..offset + 4] == B;
    Extend(indArr[..], pre, offset, B);
  }

  /** pushMeshColors_noAO: the base colour and alpha 1 at each of the four
      vertices. */
  method PushMeshColorsNoAO(colors: array<real>, faceNum: int, col: Color)
    requires 0 <= faceNum && 16 * faceNum + 16 <= colors.Length
    modifies colors
    ensures colors[..16 * faceNum + 16] == old(colors[..16 * faceNum]) + PlainBlock(col)
  {
    var offset := faceNum * 16;
    ghost var pre := colors[..offset];
    var t := 0;
    while t < 16
      invariant 0 <= t <= 16 && t % 4 == 0
      invariant colors[..offset] == pre
      invariant forall q :: 0 <= q < t ==> colors[offset + q] == Plain(col)[q % 4]
    {
      colors[offset + t] := col.r;
      colors[offset + t + 1] := col.g;
      colors[offset + t + 2] := col.b;
      colors[offset + t + 3] := 1.0;
      t := t + 4;
    }
    assert colors[offset..offset + 16] == PlainBlock(col);
    Extend(colors[..], pre, offset, PlainBlock(col));
  }

  /** pushAOColor: the base colour premultiplied by the corner's multiplier,
      alpha 1, at `ix`. */
  method PushAOColor(colors: array<real>, ix: int, baseCol: Color, ao: int, aoVals: seq<real>, revAoVal: real)
    requires IsLevel(ao) && |aoVals| >= 3 && 0 <= ix && ix + 4 <= colors.Length
    modifies colors
    ensures colors[..ix + 4] == old(colors[..ix]) + Shade(baseCol, Multiplier(ao, aoVals, revAoVal))
  {
    ghost var pre := colors[..ix];
    var mult := if ao == 0 then revAoVal else aoVals[ao - 1];
    colors[ix] := baseCol.r * mult;
    colors[ix + 1] := baseCol.g * mult;
    colors[ix + 2] := baseCol.b * mult;
    colors[ix + 3] := 1.0;
    ghost var B := Shade(baseCol, mult);
    assert B[0] == colors[ix] && B[1] == colors[ix + 1] && B[2] == colors[ix + 2] && B[3] == colors[ix + 3];
    assert colors[ix..ix + 4] == B;
    Extend(colors[..], pre, ix, B);
  }
}
