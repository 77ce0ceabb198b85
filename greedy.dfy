/** Greedy rectangle merge over one face mask (terrainMesher.js 846-945).

    A non-zero mask cell holds a material ID, negative when the face points
    in the -d direction; the AO mask holds the packed AO of the same cells.
    The merge scans the cells in order, grows a quad first along j then
    along k over cells with the same mask (and AO) value, records it, and
    zeroes the cells it used, so that the mask is all zero again when it
    returns. */
module Greedy {
  import opened Common
  import opened FaceData
  import opened Grid
  import opened Quads

  /** Width of the quad at cell n = (j, k): the run of matching cells along j. */
  method GrowWidth(doAO: bool, mask: array<int>, aomask: array<int>, n: int, j: int, len1: int,
                   maskVal: int, ao: int) returns (w: int)
    requires 0 <= j < len1
    ensures 1 <= w <= len1 - j
    ensures forall c :: n < c < n + w ==> Compare(doAO, c, mask[..], maskVal, aomask[..], ao)
    ensures w < len1 - j ==> !Compare(doAO, n + w, mask[..], maskVal, aomask[..], ao)
  {
    w := 1;
    while w < len1 - j
      invariant 1 <= w <= len1 - j
      invariant forall c :: n < c < n + w ==> Compare(doAO, c, mask[..], maskVal, aomask[..], ao)
    {
      if !Compare(doAO, n + w, mask[..], maskVal, aomask[..], ao) {
        break;
      }
      w := w + 1;
    }
  }

  /** Height of the quad: the number of rows from row k on whose w cells from
      column j all match. */
  method GrowHeight(doAO: bool, mask: array<int>, aomask: array<int>, n: int, j: int, k: int,
                    w: int, len1: int, len2: int, maskVal: int, ao: int) returns (h: int)
    requires 0 <= k < len2 && 1 <= w && n == Cell(len1, j, k)
    ensures 1 <= h <= len2 - k
    ensures forall j', k' :: j <= j' < j + w && k < k' < k + h ==>
      Compare(doAO, Cell(len1, j', k'), mask[..], maskVal, aomask[..], ao)
    ensures h < len2 - k ==> RowBreaks(doAO, mask[..], aomask[..], len1, j, w, k + h, maskVal, ao)
  {
    h := 1;
    label outer: while h < len2 - k
      invariant 1 <= h <= len2 - k
      invariant forall j', k' :: j <= j' < j + w && k < k' < k + h ==>
        Compare(doAO, Cell(len1, j', k'), mask[..], maskVal, aomask[..], ao)
    {
      var m := 0;
      ghost var row := k + h;
      while m < w
        invariant 0 <= m <= w
        invariant forall j' :: j <= j' < j + m ==>
          Compare(doAO, Cell(len1, j', row), mask[..], maskVal, aomask[..], ao)
      {
        var ix := n + m + h * len1;
        CellShift(len1, j, k, m, h);
        if !Compare(doAO, ix, mask[..], maskVal, aomask[..], ao) {
          assert RowBreaks(doAO, mask[..], aomask[..], len1, j, w, row, maskVal, ao) by {
            assert !Compare(doAO, Cell(len1, j + m, row), mask[..], maskVal, aomask[..], ao);
          }
          break outer;
        }
        m := m + 1;
      }
      h := h + 1;
    }
  }

  /** Zero the w cells from flat index n on; they all hold a face, so the
      count of face cells up to `bound` drops by w. */
  method ZeroRun(mask: array<int>, n: int, w: int, ghost bound: int)
    requires 0 <= n && 0 <= w && n + w <= bound <= mask.Length
    requires forall c :: n <= c < n + w ==> mask[c] != 0
    modifies mask
    ensures forall c :: 0 <= c < mask.Length ==> mask[c] == if n <= c < n + w then 0 else old(mask[c])
    ensures Count(mask[..bound]) == Count(old(mask[..bound])) - w
  {
    var m := 0;
    while m < w
      invariant 0 <= m <= w
      invariant forall c :: 0 <= c < mask.Length ==> mask[c] == if n <= c < n + m then 0 else old(mask[c])
      invariant Count(mask[..bound]) == Count(old(mask[..bound])) - m
    {
      ghost var pre := mask[..bound];
      mask[n + m] := 0;
      assert mask[..bound] == pre[n + m := 0];
      CountClear(pre, n + m);
      m := m + 1;
    }
  }

  /** Zero the w x h cells from cell n = (j, k) (terrainMesher.js 923-927).
      All of them hold a face, so the count of face cells drops by w * h. */
  method ZeroRect(mask: array<int>, n: int, w: int, h: int, len1: int, ghost j: int, ghost k: int,
                  ghost bound: int)
    requires 0 <= j && 1 <= w && j + w <= len1 && 0 <= k && 1 <= h
    requires n == Cell(len1, j, k)
    requires Cell(len1, 0, k + h) <= bound <= mask.Length
    requires forall j', k' :: InBox(j, k, w, h, j', k') ==> At(mask[..], len1, j', k') != 0
    modifies mask
    ensures forall j', k' :: 0 <= j' < len1 ==>
      At(mask[..], len1, j', k') == if InBox(j, k, w, h, j', k') then 0 else At(old(mask[..]), len1, j', k')
    ensures mask[bound..] == old(mask[bound..])
    ensures Count(mask[..bound]) == Count(old(mask[..bound])) - w * h
  {
    ghost var before := mask[..];
    var hx := 0;
    while hx < h
      invariant 0 <= hx <= h
      invariant forall j', k' :: 0 <= j' < len1 ==>
        At(mask[..], len1, j', k') == if InBox(j, k, w, hx, j', k') then 0 else At(before, len1, j', k')
      invariant forall c :: Cell(len1, 0, k + h) <= c < mask.Length ==> mask[c] == before[c]
      invariant Count(mask[..bound]) == Count(before[..bound]) - hx * w
    {
      var start := n + hx * len1;
      var hxNext := hx + 1;
      CellShift(len1, j, k, 0, hx);
      RunBelow(len1, j, w, k, hx, h, start);
      ghost var pre := mask[..];
      RunHoldsFaces(pre, before, len1, j, k, w, hx, h, start);
      ZeroRun(mask, start, w, bound);
      RunZeroed(pre, mask[..], before, len1, j, k, w, hx, hxNext, start);
      MulSucc(hx, hxNext, w);
      hx := hxNext;
    }
    assert mask[bound..] == before[bound..];
  }

  /** Append a quad to the record of its terrain group, taking a fresh record
      from the pool when the group has none yet (terrainMesher.js 895-919). */
  method RecordFace(fds: map<int, MeshedFaceData>, terrainID: int, face: Face, pool: FaceDataPool)
    returns (fds': map<int, MeshedFaceData>)
    requires pool.Valid() && ValidSet(fds)
    modifies pool
    ensures pool.Valid() && ValidSet(fds')
    ensures View(fds') == AddFace(View(fds), terrainID, face)
  {
    fds' := fds;
    if terrainID !in fds' {
      var fdFromPool := pool.Get();
      fdFromPool := fdFromPool.(numFaces := 0, terrainID := terrainID);
      ViewStart(fds', terrainID, fdFromPool, face);
      fds' := fds'[terrainID := fdFromPool];
    }
    ViewPush(fds', terrainID, face);
    fds' := fds'[terrainID := fds'[terrainID].Push(face)];
  }

  /** The quad at the non-empty cell n = (j, k) (terrainMesher.js 873-888):
      as wide as the run of cells matching n along j, then as tall as the
      rows above that match it across that whole width. */
  method GrowQuad(doAO: bool, mask: array<int>, aomask: array<int>, n: int, j: int, k: int,
                  len1: int, len2: int) returns (r: Rect)
    requires 0 <= j < len1 && 0 <= k < len2 && n == Cell(len1, j, k)
    requires RowStart(len1, len2) <= mask.Length && RowStart(len1, len2) <= aomask.Length
    requires At(mask[..], len1, j, k) != 0
    ensures r.j == j && r.k == k && RectOk(r, len1, len2)
    ensures r.ao == At(aomask[..], len1, j, k)
    ensures forall j', k' :: InRect(r, j', k') ==>
      At(mask[..], len1, j', k') == r.val && (doAO ==> At(aomask[..], len1, j', k') == r.ao)
    // neither direction can be extended
    ensures j + r.w < len1 ==> !Compare(doAO, n + r.w, mask[..], r.val, aomask[..], r.ao)
    ensures k + r.h < len2 ==> RowBreaks(doAO, mask[..], aomask[..], len1, j, r.w, k + r.h, r.val, r.ao)
  {
    CellInRange(len1, len2, j, k);
    var maskVal := mask[n];
    var ao := aomask[n];
    var w := GrowWidth(doAO, mask, aomask, n, j, len1, maskVal, ao);
    var h := GrowHeight(doAO, mask, aomask, n, j, k, w, len1, len2, maskVal, ao);
    r := Rect(j, k, w, h, maskVal, ao);
    RectMatches(doAO, mask[..], aomask[..], len1, len2, n, r);
  }

  /** Record quad r, found at cell (j, k), in its terrain group
      (terrainMesher.js 890-919). */
  method RecordQuad(i: int, d: int, u: int, v: int, j: int, k: int, r: Rect,
                    fds: map<int, MeshedFaceData>, matToTerrain: seq<int>, pool: FaceDataPool,
                    ghost rects: seq<Rect>, ghost view0: map<int, seq<Face>>)
    returns (fds': map<int, MeshedFaceData>)
    requires r.j == j && r.k == k && Abs(r.val) < |matToTerrain|
    requires pool.Valid() && Recorded(fds, view0, d, u, v, i, rects, matToTerrain)
    modifies pool
    ensures pool.Valid() && Recorded(fds', view0, d, u, v, i, rects + [r], matToTerrain)
  {
    var matID := Abs(r.val);
    var terrainID := matToTerrain[matID];
    var x := Place(d, u, v, i, j, k);
    var face := Face(matID, if r.val > 0 then 2 * d else 2 * d + 1, x.x, x.y, x.z, r.w, r.h, r.ao);
    assert face == RectFace(d, u, v, i, r);
    fds' := RecordFace(fds, terrainID, face, pool);
    AddRectsAppend(view0, d, u, v, i, rects, r, matToTerrain);
  }

  /** One quad from the non-empty cell n = (j, k) (terrainMesher.js 873-930):
      grow it, record it, zero its cells. */
  method MergeQuad(i: int, d: int, u: int, v: int, len1: int, len2: int, n: int, j: int, k: int,
                   doAO: bool, fds: map<int, MeshedFaceData>, mask: array<int>, aomask: array<int>,
                   matToTerrain: seq<int>, pool: FaceDataPool,
                   ghost M0: seq<int>, ghost A: seq<int>, ghost rects: seq<Rect>,
                   ghost view0: map<int, seq<Face>>)
    returns (fds': map<int, MeshedFaceData>, w: int, h: int, jNext: int, ghost rects': seq<Rect>)
    requires 0 <= j < len1 && 0 <= k < len2 && n == Cell(len1, j, k)
    requires RowStart(len1, len2) <= mask.Length && RowStart(len1, len2) <= aomask.Length && mask != aomask
    requires |M0| == mask.Length && forall c :: 0 <= c < RowStart(len1, len2) ==> Abs(M0[c]) < |matToTerrain|
    requires aomask[..] == A && Scanned(M0, A, mask[..], len1, len2, doAO, rects, j, k)
    requires ScanGreedy(M0, A, len1, len2, doAO, rects, j, k)
    requires At(mask[..], len1, j, k) != 0
    requires pool.Valid() && Recorded(fds, view0, d, u, v, i, rects, matToTerrain)
    modifies mask, pool
    ensures 1 <= w && jNext == j + w <= len1 && 1 <= h
    ensures Scanned(M0, A, mask[..], len1, len2, doAO, rects', jNext, k)
    ensures ScanGreedy(M0, A, len1, len2, doAO, rects', jNext, k)
    ensures pool.Valid() && Recorded(fds', view0, d, u, v, i, rects', matToTerrain)
    ensures mask[RowStart(len1, len2)..] == old(mask[RowStart(len1, len2)..])
    ensures Count(mask[..RowStart(len1, len2)]) == Count(old(mask[..RowStart(len1, len2)])) - w * h
  {
    ghost var L := RowStart(len1, len2);
    ghost var m0 := mask[..];
    CellInRange(len1, len2, j, k);
    // compute width and height of the area with the same mask/AO values
    var r := GrowQuad(doAO, mask, aomask, n, j, k, len1, len2);
    w, h := r.w, r.h;
    assert r.val == M0[n];
    // the quad is the greedy one: first face cell, widest, then tallest
    assert n + r.w == Cell(len1, j + r.w, k);
    GreedyAppend(M0, A, m0, len1, len2, doAO, rects, r, j + r.w);

    fds' := RecordQuad(i, d, u, v, j, k, r, fds, matToTerrain, pool, rects, view0);
    rects' := rects + [r];

    // the face is finished: zero the used part of the mask
    RowsBelow(len1, len2, k, h);
    assert mask[..] == m0;
    assert forall j', k' :: InBox(j, k, w, h, j', k') ==> At(mask[..], len1, j', k') != 0 by {
      forall j', k' | InBox(j, k, w, h, j', k')
        ensures At(mask[..], len1, j', k') != 0
      {
        assert InRect(r, j', k');
      }
    }
    ZeroRect(mask, n, w, h, len1, j, k, L);
    jNext := j + w;
    ScanFace(M0, A, old(mask[..]), mask[..], len1, len2, doAO, rects, r, j, k, jNext, rects');
  }

  /** constructGeometryFromMasks: merge the face cells of the mask into quads,
      append one record per quad to the faceDataSet, and zero the mask.
      `numFaces` is at least the number of face cells (constructMeshMask's
      count); the scan stops early once that many cells have been used. */
  method ConstructGeometryFromMasks(i: int, d: int, u: int, v: int, len1: int, len2: int,
                                    numFaces: int, faceDataSet: map<int, MeshedFaceData>,
                                    mask: array<int>, aomask: array<int>, doAO: bool,
                                    matToTerrain: seq<int>, pool: FaceDataPool)
    returns (fds: map<int, MeshedFaceData>, ghost rects: seq<Rect>)
    requires IsPermutation(d, u, v)
    requires 0 < len1 && 0 <= len2 && len1 * len2 <= mask.Length && len1 * len2 <= aomask.Length
    requires mask != aomask
    requires forall c :: 0 <= c < len1 * len2 ==> Abs(mask[c]) < |matToTerrain|
    requires Count(mask[..len1 * len2]) <= numFaces
    requires pool.Valid() && ValidSet(faceDataSet)
    modifies mask, pool
    ensures pool.Valid()
    ensures ExactCover(old(mask[..]), old(aomask[..]), len1, len2, doAO, rects)
    // each quad is the greedy one: it starts at the first face cell left in
    // scan order, is as wide as it can be, then as tall across that width
    ensures Greedy(old(mask[..]), old(aomask[..]), len1, len2, doAO, rects) && InScanOrder(rects)
    // the mask is left all zero; cells past the mask are untouched
    ensures forall c :: 0 <= c < len1 * len2 ==> mask[c] == 0
    ensures forall c :: len1 * len2 <= c < mask.Length ==> mask[c] == old(mask[c])
    // one record per quad, in scan order, in the group of its terrain
    ensures Recorded(fds, View(faceDataSet), d, u, v, i, rects, matToTerrain)
  {
    ghost var L := RowStart(len1, len2);
    RowStartMul(len1, len2);
    ghost var M0, A := mask[..], aomask[..];
    assert forall c :: 0 <= c < L ==> Abs(M0[c]) < |matToTerrain|;
    ghost var view0 := View(faceDataSet);
    var k;
    fds, rects, k := MergeRows(i, d, u, v, len1, len2, numFaces, faceDataSet, mask, aomask, doAO,
                               matToTerrain, pool, M0, A, view0);
    ghost var m := mask[..];
    ScanFinished(M0, A, m, len1, len2, doAO, rects, k);
  }

  /** The loop over the rows k (terrainMesher.js 858-931): row by row, until
      the last row or until no face cell is left. */
  method MergeRows(i: int, d: int, u: int, v: int, len1: int, len2: int, numFaces: int,
                   faceDataSet: map<int, MeshedFaceData>, mask: array<int>, aomask: array<int>, doAO: bool,
                   matToTerrain: seq<int>, pool: FaceDataPool,
                   ghost M0: seq<int>, ghost A: seq<int>, ghost view0: map<int, seq<Face>>)
    returns (fds: map<int, MeshedFaceData>, ghost rects: seq<Rect>, k: int)
    requires 0 < len1 && 0 <= len2 && mask != aomask
    requires RowStart(len1, len2) <= mask.Length && RowStart(len1, len2) <= aomask.Length
    requires mask[..] == M0 && aomask[..] == A
    requires forall c :: 0 <= c < RowStart(len1, len2) ==> Abs(M0[c]) < |matToTerrain|
    requires Count(M0[..RowStart(len1, len2)]) <= numFaces
    requires pool.Valid() && Recorded(faceDataSet, view0, d, u, v, i, [], matToTerrain)
    modifies mask, pool
    ensures Scanned(M0, A, mask[..], len1, len2, doAO, rects, 0, k)
    ensures ScanGreedy(M0, A, len1, len2, doAO, rects, 0, k)
    ensures len2 <= k || Count(mask[..RowStart(len1, len2)]) == 0
    ensures mask[RowStart(len1, len2)..] == M0[RowStart(len1, len2)..]
    ensures pool.Valid() && Recorded(fds, view0, d, u, v, i, rects, matToTerrain)
  {
    ghost var L := RowStart(len1, len2);
    fds := faceDataSet;
    rects := [];
    ScanStart(M0, A, len1, len2, doAO);
    var numLeft := numFaces;
    var n := 0;
    k := 0;
    var done := false;
    while k < len2
      invariant 0 <= k && n == Cell(len1, 0, k)
      invariant aomask[..] == A
      invariant Scanned(M0, A, mask[..], len1, len2, doAO, rects, 0, k)
      invariant ScanGreedy(M0, A, len1, len2, doAO, rects, 0, k)
      invariant mask[L..] == M0[L..]
      invariant Count(mask[..L]) <= numLeft
      invariant pool.Valid() && Recorded(fds, view0, d, u, v, i, rects, matToTerrain)
    {
      var nNext := n + len1;
      fds, numLeft, done, rects, k := MergeRow(i, d, u, v, len1, len2, n, k, doAO, fds, mask, aomask,
                                               matToTerrain, pool, numLeft, M0, A, rects, view0);
      // no face cell left
      if done {
        break;
      }
      n := nNext;
    }
  }

  /** One row k of the scan (the loop over j, terrainMesher.js 862-931): an
      empty cell is passed over, a face cell starts a quad. `done` is set when
      the last face cell has been used, and then the whole mask is zero. */
  method MergeRow(i: int, d: int, u: int, v: int, len1: int, len2: int, n0: int, k: int,
                  doAO: bool, fds0: map<int, MeshedFaceData>, mask: array<int>, aomask: array<int>,
                  matToTerrain: seq<int>, pool: FaceDataPool, numLeft0: int,
                  ghost M0: seq<int>, ghost A: seq<int>, ghost rects0: seq<Rect>,
                  ghost view0: map<int, seq<Face>>)
    returns (fds: map<int, MeshedFaceData>, numLeft: int, done: bool, ghost rects: seq<Rect>, kNext: int)
    requires 0 < len1 && 0 <= k < len2 && n0 == Cell(len1, 0, k)
    requires RowStart(len1, len2) <= mask.Length && RowStart(len1, len2) <= aomask.Length && mask != aomask
    requires |M0| == mask.Length && forall c :: 0 <= c < RowStart(len1, len2) ==> Abs(M0[c]) < |matToTerrain|
    requires aomask[..] == A && Scanned(M0, A, mask[..], len1, len2, doAO, rects0, 0, k)
    requires ScanGreedy(M0, A, len1, len2, doAO, rects0, 0, k)
    requires mask[RowStart(len1, len2)..] == M0[RowStart(len1, len2)..]
    requires Count(mask[..RowStart(len1, len2)]) <= numLeft0
    requires pool.Valid() && Recorded(fds0, view0, d, u, v, i, rects0, matToTerrain)
    modifies mask, pool
    ensures kNext == k + 1
    ensures Scanned(M0, A, mask[..], len1, len2, doAO, rects, 0, kNext)
    ensures ScanGreedy(M0, A, len1, len2, doAO, rects, 0, kNext)
    ensures done ==> Count(mask[..RowStart(len1, len2)]) == 0
    ensures mask[RowStart(len1, len2)..] == M0[RowStart(len1, len2)..]
    ensures Count(mask[..RowStart(len1, len2)]) <= numLeft
    ensures pool.Valid() && Recorded(fds, view0, d, u, v, i, rects, matToTerrain)
  {
    ghost var L := RowStart(len1, len2);
    fds, numLeft, done, rects, kNext := fds0, numLeft0, false, rects0, k + 1;
    var n := n0;
    var w := 1;
    var h := 1;
    var j := 0;
    while j < len1
      invariant 0 <= j <= len1 && n == Cell(len1, j, k)
      invariant aomask[..] == A
      invariant Scanned(M0, A, mask[..], len1, len2, doAO, rects, j, k)
      invariant ScanGreedy(M0, A, len1, len2, doAO, rects, j, k)
      invariant mask[L..] == M0[L..]
      invariant Count(mask[..L]) <= numLeft
      invariant pool.Valid() && Recorded(fds, view0, d, u, v, i, rects, matToTerrain)
    {
      CellInRange(len1, len2, j, k);
      var maskVal := mask[n];
      if maskVal == 0 {
        w := 1;
        ghost var jPrev := j;
        j, n := j + w, n + w;
        ScanSkip(M0, A, mask[..], len1, len2, doAO, rects, jPrev, j, k);
        continue;
      }
      // j moves past the quad
      fds, w, h, j, rects := MergeQuad(i, d, u, v, len1, len2, n, j, k, doAO, fds, mask, aomask,
                                       matToTerrain, pool, M0, A, rects, view0);
      n := n + w;
      assert aomask[..] == A;
      numLeft := numLeft - w * h;
      if numLeft == 0 {
        ScanCleared(M0, A, mask[..], len1, len2, doAO, rects, j, k, kNext);
        done := true;
        return;
      }
    }
    ScanNextRow(M0, A, mask[..], len1, len2, doAO, rects, j, k, kNext);
  }
}
