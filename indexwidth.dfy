/** The triangle indices as the Uint16Array createMeshData allocates for
    them stores them (terrainMesher.js 1147): every value is taken modulo
    2^16. The rest of the model keeps the unwrapped values addIndexValues
    computes. */
module IndexWidth {
  import opened FaceData
  import opened Builder
  import opened Geometry

  /** A store into a Uint16Array: ToUint16, the value modulo 2^16. */
  function Uint16(v: int): (r: int)
    ensures 0 <= r < 65536
    ensures 0 <= v < 65536 ==> r == v
  {
    v % 65536
  }

  /** The index buffer as the typed array holds it. */
  function StoredIndices(indices: seq<int>): (r: seq<int>)
    ensures |r| == |indices|
    ensures forall n :: 0 <= n < |r| ==> r[n] == Uint16(indices[n])
  {
    seq(|indices|, n requires 0 <= n < |indices| => Uint16(indices[n]))
  }

  /** Quad 16384 starts at vertex 65536: its six stored indices are the
      ones of quad 0, so its two triangles are drawn over quad 0's
      vertices, although addIndexValues computed different ones. */
  lemma StoredIndexWrap(axis: int, sign: int, triDir: bool)
    ensures StoredIndices(IndexBlock(16384, axis, sign, triDir)) == IndexBlock(0, axis, sign, triDir)
    ensures IndexBlock(16384, axis, sign, triDir) != IndexBlock(0, axis, sign, triDir)
  {
    var r := IndexBlock(16384, axis, sign, triDir);
    var r0 := IndexBlock(0, axis, sign, triDir);
    var list := IndexLists[ListChoice(axis, sign, triDir)];
    var S := StoredIndices(r);
    forall t | 0 <= t < 6
      ensures S[t] == r0[t]
    {
      assert 0 <= list[t] < 4;
      assert r[t] == 65536 + list[t] && r0[t] == list[t];
    }
    assert S == r0;
    assert r[0] != r0[0];
  }

  /** In a group of more than 16384 quads, every stored index of quad 16384
      names one of quad 0's vertices, none of its own (65536 .. 65539). */
  lemma GroupIndexWraps(mb: MeshBuilder, fd: MeshedFaceData, requestID: int, t: int)
    requires mb.Valid() && fd.Valid() && mb.Covers(fd.Faces()) && 16384 < fd.numFaces && 0 <= t < 6
    ensures var md := mb.GroupMesh(fd, requestID);
      6 * 16384 + t < |md.indices|
      && 65536 <= md.indices[6 * 16384 + t] < 65540
      && StoredIndices(md.indices)[6 * 16384 + t] < 4
  {
    GroupIndexAt(mb, fd, requestID, 16384, t);
  }
}
