/** The quads the greedy merge cuts a face mask into, what they must say
    about the mask, and the state of the scan between two cells. */
module Quads {
  import opened Common
  import opened FaceData
  import opened Grid

  function Abs(x: int): int
  {
    if x < 0 then -x else x
  }

  /** maskCompare: same mask value and same AO value. */
  function MaskCompare(index: int, mask: seq<int>, maskVal: int, aomask: seq<int>, aoVal: int): bool
  {
    0 <= index < |mask| && mask[index] == maskVal && index < |aomask| && aomask[index] == aoVal
  }

  /** maskCompare_noAO: same mask value. */
  function MaskCompareNoAO(index: int, mask: seq<int>, maskVal: int): bool
  {
    0 <= index < |mask| && mask[index] == maskVal
  }

  /** maskCompareFcn: the comparison chosen by the doAO setting. */
  function Compare(doAO: bool, index: int, mask: seq<int>, maskVal: int, aomask: seq<int>, aoVal: int): (r: bool)
    ensures r ==> 0 <= index < |mask| && mask[index] == maskVal
    ensures r && doAO ==> 0 <= index < |aomask| && aomask[index] == aoVal
  {
    if doAO then MaskCompare(index, mask, maskVal, aomask, aoVal) else MaskCompareNoAO(index, mask, maskVal)
  }

  /** A merged quad in mask coordinates: origin (j, k), width w along j,
      height h along k, the mask value and the AO value it was merged over. */
  datatype Rect = Rect(j: int, k: int, w: int, h: int, val: int, ao: int)

  predicate InRect(r: Rect, j: int, k: int)
  {
    r.j <= j < r.j + r.w && r.k <= k < r.k + r.h
  }

  /** `w, h >= 1`, `j + w <= len1`, `k + h <= len2`, and it stands for a face. */
  predicate RectOk(r: Rect, len1: int, len2: int)
  {
    1 <= r.w && 1 <= r.h && 0 <= r.j && r.j + r.w <= len1 && 0 <= r.k && r.k + r.h <= len2 && r.val != 0
  }

  /** The mask the quads paint: the value of the last quad covering (j, k), 0 if none. */
  function RasterAt(rs: seq<Rect>, j: int, k: int): int
  {
    if rs == [] then 0
    else if InRect(rs[|rs| - 1], j, k) then rs[|rs| - 1].val
    else RasterAt(rs[..|rs| - 1], j, k)
  }

  lemma RasterAppend(rs: seq<Rect>, r: Rect, j: int, k: int)
    ensures RasterAt(rs + [r], j, k) == if InRect(r, j, k) then r.val else RasterAt(rs, j, k)
  {
    assert (rs + [r])[..|rs|] == rs;
  }

  ghost predicate Disjoint(rs: seq<Rect>)
  {
    forall p, q, j, k :: 0 <= p < q < |rs| && InRect(rs[p], j, k) ==> !InRect(rs[q], j, k)
  }

  /** The quad recorded for rectangle r of the mask of plane `i` of the sweep
      along d: `matID = |maskVal|`, `dir = 2d` for a positive value and
      `2d + 1` otherwise, and the origin placed at x[d] = i, x[u] = j, x[v] = k. */
  function RectFace(d: int, u: int, v: int, i: int, r: Rect): (f: Face)
  {
    var x := Place(d, u, v, i, r.j, r.k);
    Face(Abs(r.val), if r.val > 0 then 2 * d else 2 * d + 1, x.x, x.y, x.z, r.w, r.h, r.ao)
  }

  predicate HasTerrain(rs: seq<Rect>, matToTerrain: seq<int>)
  {
    forall p :: 0 <= p < |rs| ==> Abs(rs[p].val) < |matToTerrain|
  }

  /** The faceDataSet contents after appending the quads of `rs`, in order,
      each to the group of its material's terrain. */
  function AddRects(view: map<int, seq<Face>>, d: int, u: int, v: int, i: int, rs: seq<Rect>,
                    matToTerrain: seq<int>): map<int, seq<Face>>
    requires HasTerrain(rs, matToTerrain)
  {
    if rs == [] then view
    else
      var r := rs[|rs| - 1];
      AddFace(AddRects(view, d, u, v, i, rs[..|rs| - 1], matToTerrain),
              matToTerrain[Abs(r.val)], RectFace(d, u, v, i, r))
  }

  /** The faceDataSet `fds` holds the faces of `rects` appended, in order, to
      the groups of `start`, each in the group of its material's terrain. */
  ghost predicate Recorded(fds: map<int, MeshedFaceData>, start: map<int, seq<Face>>,
                           d: int, u: int, v: int, i: int, rects: seq<Rect>, matToTerrain: seq<int>)
  {
    && ValidSet(fds) && HasTerrain(rects, matToTerrain)
    && View(fds) == AddRects(start, d, u, v, i, rects, matToTerrain)
  }

  /** Some cell of row `row` between columns j and j + w - 1 does not match. */
  predicate RowBreaks(doAO: bool, mask: seq<int>, aomask: seq<int>, len1: int, j: int, w: int, row: int,
                      maskVal: int, ao: int)
  {
    exists j' :: j <= j' < j + w && !Compare(doAO, Cell(len1, j', row), mask, maskVal, aomask, ao)
  }

  /** Cell (j', k') comes before cell (j, k) in scan order. */
  predicate Before(j': int, k': int, j: int, k: int)
  {
    k' < k || (k' == k && j' < j)
  }

  /** Cell (j, k) of M0 once the cells of the quads rs are zeroed: the mask
      as the scan reads it after recording them. */
  function Erased(M0: seq<int>, len1: int, rs: seq<Rect>, j: int, k: int): int
  {
    if RasterAt(rs, j, k) != 0 then 0 else At(M0, len1, j, k)
  }

  /** After the quads rs, cell (j, k) still holds val (and, with AO, the AO
      value ao), so a quad of val and ao may grow over it. */
  predicate Joins(M0: seq<int>, A: seq<int>, len1: int, doAO: bool, rs: seq<Rect>, j: int, k: int,
                  val: int, ao: int)
  {
    Erased(M0, len1, rs, j, k) == val && (doAO ==> At(A, len1, j, k) == ao)
  }

  /** After the quads rs, some cell of row `row` between columns j0 and
      j0 + w - 1 does not join a quad of val and ao. */
  predicate RowStops(M0: seq<int>, A: seq<int>, len1: int, doAO: bool, rs: seq<Rect>, j0: int, w: int, row: int,
                     val: int, ao: int)
  {
    exists j :: j0 <= j < j0 + w && !Joins(M0, A, len1, doAO, rs, j, row, val, ao)
  }

  /** r is the quad the scan grows once the quads rs are zeroed: its origin
      is the first cell left non-zero in scan order, the cell after its last
      column does not join it, and the row above it breaks somewhere across
      its width. */
  ghost predicate GreedyNext(M0: seq<int>, A: seq<int>, len1: int, len2: int, doAO: bool, rs: seq<Rect>, r: Rect)
  {
    && (forall j, k :: 0 <= j < len1 && 0 <= k < len2 && Before(j, k, r.j, r.k) ==> Erased(M0, len1, rs, j, k) == 0)
    && (r.j + r.w < len1 ==> !Joins(M0, A, len1, doAO, rs, r.j + r.w, r.k, r.val, r.ao))
    && (r.k + r.h < len2 ==> RowStops(M0, A, len1, doAO, rs, r.j, r.w, r.k + r.h, r.val, r.ao))
  }

  /** Every quad is the one the greedy scan grows after the quads before it. */
  ghost predicate Greedy(M0: seq<int>, A: seq<int>, len1: int, len2: int, doAO: bool, rects: seq<Rect>)
  {
    forall p :: 0 <= p < |rects| ==> GreedyNext(M0, A, len1, len2, doAO, rects[..p], rects[p])
  }

  /** The quads come in the scan order of their origins. */
  ghost predicate InScanOrder(rects: seq<Rect>)
  {
    forall p, q :: 0 <= p < q < |rects| ==> Before(rects[p].j, rects[p].k, rects[q].j, rects[q].k)
  }

  /** The greedy state of the scan at cell (j, k): every quad so far is the
      greedy one, in scan order, with its origin before (j, k). */
  ghost predicate ScanGreedy(M0: seq<int>, A: seq<int>, len1: int, len2: int, doAO: bool, rects: seq<Rect>,
                             j: int, k: int)
  {
    && Greedy(M0, A, len1, len2, doAO, rects)
    && InScanOrder(rects)
    && (forall p :: 0 <= p < |rects| ==> Before(rects[p].j, rects[p].k, j, k))
  }

  /** What the quads `rects` say about mask M0 (with AO mask A): each lies
      inside the mask and stands for a face, no two overlap, every cell a
      quad covers held its mask value (and its AO value when AO is on), and
      painting them back gives M0. */
  ghost predicate ExactCover(M0: seq<int>, A: seq<int>, len1: int, len2: int, doAO: bool, rects: seq<Rect>)
  {
    && (forall p :: 0 <= p < |rects| ==> RectOk(rects[p], len1, len2))
    && Disjoint(rects)
    && (forall p, j, k :: 0 <= p < |rects| && InRect(rects[p], j, k) ==>
          At(M0, len1, j, k) == rects[p].val && (doAO ==> At(A, len1, j, k) == rects[p].ao))
    && (forall p :: 0 <= p < |rects| ==> At(A, len1, rects[p].j, rects[p].k) == rects[p].ao)
    && (forall j, k :: 0 <= j < len1 && 0 <= k < len2 ==> RasterAt(rects, j, k) == At(M0, len1, j, k))
  }

  /** The state of the scan at cell (j, k): the quads found so far are valid,
      disjoint and match M0; `m` is M0 with their cells zeroed; every cell
      before (j, k) is zero. */
  ghost predicate Scanned(M0: seq<int>, A: seq<int>, m: seq<int>, len1: int, len2: int, doAO: bool,
                          rects: seq<Rect>, j: int, k: int)
  {
    && QuadsOk(rects, len1, len2)
    && Disjoint(rects)
    && QuadsMatch(M0, A, len1, doAO, rects)
    && Painted(M0, m, len1, len2, rects)
    && ClearedBefore(m, len1, len2, j, k)
  }

  ghost predicate QuadsOk(rects: seq<Rect>, len1: int, len2: int)
  {
    forall p :: 0 <= p < |rects| ==> RectOk(rects[p], len1, len2)
  }

  /** Every cell a quad covers holds its mask value (and AO value when AO is
      on) in M0, and the AO mask holds the quad's AO value at its origin. */
  ghost predicate QuadsMatch(M0: seq<int>, A: seq<int>, len1: int, doAO: bool, rects: seq<Rect>)
  {
    && (forall p, j', k' :: 0 <= p < |rects| && InRect(rects[p], j', k') ==>
          At(M0, len1, j', k') == rects[p].val && (doAO ==> At(A, len1, j', k') == rects[p].ao))
    && (forall p :: 0 <= p < |rects| ==> At(A, len1, rects[p].j, rects[p].k) == rects[p].ao)
  }

  /** `m` is M0 with the painted cells zeroed, and painted cells show M0's value. */
  ghost predicate Painted(M0: seq<int>, m: seq<int>, len1: int, len2: int, rects: seq<Rect>)
  {
    && (forall j', k' :: 0 <= j' < len1 && 0 <= k' < len2 ==>
          At(m, len1, j', k') == if RasterAt(rects, j', k') != 0 then 0 else At(M0, len1, j', k'))
    && (forall j', k' :: 0 <= j' < len1 && 0 <= k' < len2 && RasterAt(rects, j', k') != 0 ==>
          RasterAt(rects, j', k') == At(M0, len1, j', k'))
  }

  ghost predicate ClearedBefore(m: seq<int>, len1: int, len2: int, j: int, k: int)
  {
    forall j', k' :: 0 <= j' < len1 && 0 <= k' < len2 && Before(j', k', j, k) ==> At(m, len1, j', k') == 0
  }

  /** A cell no quad paints is covered by none of them. */
  lemma {:induction false} RasterZero(rs: seq<Rect>, j: int, k: int, p: int)
    requires forall q :: 0 <= q < |rs| ==> rs[q].val != 0
    requires RasterAt(rs, j, k) == 0 && 0 <= p < |rs|
    ensures !InRect(rs[p], j, k)
  {
    if p < |rs| - 1 {
      var init := rs[..|rs| - 1];
      assert init[p] == rs[p];
      RasterZero(init, j, k, p);
    }
  }

  lemma ScanStart(M0: seq<int>, A: seq<int>, len1: int, len2: int, doAO: bool)
    ensures Scanned(M0, A, M0, len1, len2, doAO, [], 0, 0)
  {
  }

  /** An empty cell is passed over. */
  lemma ScanSkip(M0: seq<int>, A: seq<int>, m: seq<int>, len1: int, len2: int, doAO: bool,
                 rects: seq<Rect>, j: int, jNext: int, k: int)
    requires Scanned(M0, A, m, len1, len2, doAO, rects, j, k)
    requires At(m, len1, j, k) == 0 && jNext == j + 1
    ensures Scanned(M0, A, m, len1, len2, doAO, rects, jNext, k)
  {
  }

  /** The end of a row is the start of the next one. */
  lemma ScanNextRow(M0: seq<int>, A: seq<int>, m: seq<int>, len1: int, len2: int, doAO: bool,
                    rects: seq<Rect>, j: int, k: int, kNext: int)
    requires Scanned(M0, A, m, len1, len2, doAO, rects, j, k)
    requires len1 <= j && kNext == k + 1
    ensures Scanned(M0, A, m, len1, len2, doAO, rects, 0, kNext)
  {
  }

  /** The cells of a quad grown over non-zero cells of `m` were not painted
      yet, so they still hold their M0 values. */
  lemma FreshQuad(M0: seq<int>, m: seq<int>, len1: int, len2: int, rects: seq<Rect>, r: Rect)
    requires Painted(M0, m, len1, len2, rects) && RectOk(r, len1, len2)
    requires forall j', k' :: InRect(r, j', k') ==> At(m, len1, j', k') == r.val
    ensures forall j', k' :: InRect(r, j', k') ==> RasterAt(rects, j', k') == 0 && At(M0, len1, j', k') == r.val
  {
    forall j', k' | InRect(r, j', k')
      ensures RasterAt(rects, j', k') == 0 && At(M0, len1, j', k') == r.val
    {
      assert At(m, len1, j', k') == r.val;
    }
  }

  lemma DisjointAppend(rects: seq<Rect>, r: Rect, len1: int, len2: int)
    requires Disjoint(rects) && QuadsOk(rects, len1, len2)
    requires forall j', k' :: InRect(r, j', k') ==> RasterAt(rects, j', k') == 0
    ensures Disjoint(rects + [r])
  {
    var rs := rects + [r];
    forall p, q, j', k' | 0 <= p < q < |rs| && InRect(rs[p], j', k')
      ensures !InRect(rs[q], j', k')
    {
      if q == |rects| && InRect(r, j', k') {
        assert rs[p] == rects[p];
        RasterZero(rects, j', k', p);
      } else if q < |rects| {
        assert rs[p] == rects[p] && rs[q] == rects[q];
      }
    }
  }

  lemma MatchAppend(M0: seq<int>, A: seq<int>, len1: int, doAO: bool, rects: seq<Rect>, r: Rect)
    requires QuadsMatch(M0, A, len1, doAO, rects)
    requires forall j', k' :: InRect(r, j', k') ==>
      At(M0, len1, j', k') == r.val && (doAO ==> At(A, len1, j', k') == r.ao)
    requires At(A, len1, r.j, r.k) == r.ao
    ensures QuadsMatch(M0, A, len1, doAO, rects + [r])
  {
    var rs := rects + [r];
    assert forall p :: 0 <= p < |rects| ==> rs[p] == rects[p];
  }

  lemma PaintAppend(M0: seq<int>, m: seq<int>, m': seq<int>, len1: int, len2: int, rects: seq<Rect>, r: Rect)
    requires Painted(M0, m, len1, len2, rects)
    requires forall j', k' :: InRect(r, j', k') ==> At(M0, len1, j', k') == r.val
    requires forall j', k' :: 0 <= j' < len1 ==>
      At(m', len1, j', k') == if InBox(r.j, r.k, r.w, r.h, j', k') then 0 else At(m, len1, j', k')
    requires r.val != 0
    ensures Painted(M0, m', len1, len2, rects + [r])
  {
    var rs := rects + [r];
    forall j', k' | 0 <= j' < len1 && 0 <= k' < len2
      ensures At(m', len1, j', k') == if RasterAt(rs, j', k') != 0 then 0 else At(M0, len1, j', k')
      ensures RasterAt(rs, j', k') != 0 ==> RasterAt(rs, j', k') == At(M0, len1, j', k')
    {
      RasterAppend(rects, r, j', k');
    }
  }

  lemma ClearAppend(m: seq<int>, m': seq<int>, len1: int, len2: int, r: Rect, jNext: int)
    requires ClearedBefore(m, len1, len2, r.j, r.k) && jNext == r.j + r.w && 1 <= r.h
    requires forall j', k' :: 0 <= j' < len1 ==>
      At(m', len1, j', k') == if InBox(r.j, r.k, r.w, r.h, j', k') then 0 else At(m, len1, j', k')
    ensures ClearedBefore(m', len1, len2, jNext, r.k)
  {
    forall j', k' | 0 <= j' < len1 && 0 <= k' < len2 && Before(j', k', jNext, r.k)
      ensures At(m', len1, j', k') == 0
    {
      if Before(j', k', r.j, r.k) {
        assert At(m, len1, j', k') == 0;
      } else {
        assert InBox(r.j, r.k, r.w, r.h, j', k');
      }
    }
  }

  /** Recording quad r found at (j, k) and zeroing its cells moves the scan past it. */
  lemma ScanFace(M0: seq<int>, A: seq<int>, m: seq<int>, m': seq<int>, len1: int, len2: int, doAO: bool,
                 rects: seq<Rect>, r: Rect, j: int, k: int, jNext: int, rects': seq<Rect>)
    requires Scanned(M0, A, m, len1, len2, doAO, rects, j, k)
    requires r.j == j && r.k == k && jNext == j + r.w && rects' == rects + [r]
    requires RectOk(r, len1, len2)
    requires forall j', k' :: InRect(r, j', k') ==>
      At(m, len1, j', k') == r.val && (doAO ==> At(A, len1, j', k') == r.ao)
    requires At(A, len1, r.j, r.k) == r.ao
    requires forall j', k' :: 0 <= j' < len1 ==>
      At(m', len1, j', k') == if InBox(r.j, r.k, r.w, r.h, j', k') then 0 else At(m, len1, j', k')
    ensures Scanned(M0, A, m', len1, len2, doAO, rects', jNext, k)
  {
    FreshQuad(M0, m, len1, len2, rects, r);
    DisjointAppend(rects, r, len1, len2);
    MatchAppend(M0, A, len1, doAO, rects, r);
    PaintAppend(M0, m, m', len1, len2, rects, r);
    ClearAppend(m, m', len1, len2, r, jNext);
    var rs := rects + [r];
    assert QuadsOk(rs, len1, len2) by {
      assert forall p :: 0 <= p < |rects| ==> rs[p] == rects[p];
    }
  }

  /** No face cell left: the scan can stop early, as if it had reached the
      start of any later row. */
  lemma ScanCleared(M0: seq<int>, A: seq<int>, m: seq<int>, len1: int, len2: int, doAO: bool,
                    rects: seq<Rect>, j: int, k: int, kNext: int)
    requires Scanned(M0, A, m, len1, len2, doAO, rects, j, k)
    requires 0 <= len1 && 0 <= len2 && RowStart(len1, len2) <= |m| && Count(m[..RowStart(len1, len2)]) == 0
    ensures Scanned(M0, A, m, len1, len2, doAO, rects, 0, kNext)
  {
    AllZero(m, RowStart(len1, len2), len1, len2);
  }

  /** The scan ends at the end of the last row, or earlier once no face cell
      is left; either way the whole mask is zero and the quads cover it exactly. */
  lemma ScanFinished(M0: seq<int>, A: seq<int>, m: seq<int>, len1: int, len2: int, doAO: bool,
                     rects: seq<Rect>, k: int)
    requires Scanned(M0, A, m, len1, len2, doAO, rects, 0, k)
    requires 0 < len1 && 0 <= len2 && RowStart(len1, len2) <= |m|
    requires len2 <= k || Count(m[..RowStart(len1, len2)]) == 0
    ensures forall c :: 0 <= c < RowStart(len1, len2) ==> m[c] == 0
    ensures ExactCover(M0, A, len1, len2, doAO, rects)
  {
    if len2 <= k {
      forall c | 0 <= c < RowStart(len1, len2)
        ensures m[c] == 0
      {
        CellOfBelow(len1, len2, c);
        assert At(m, len1, c % len1, c / len1) == 0;
      }
    } else {
      AllZero(m, RowStart(len1, len2), len1, len2);
    }
    ScanDone(M0, A, m, len1, len2, doAO, rects);
  }

  /** Once the whole mask is zero, the quads cover it exactly. */
  lemma ScanDone(M0: seq<int>, A: seq<int>, m: seq<int>, len1: int, len2: int, doAO: bool,
                 rects: seq<Rect>)
    requires QuadsOk(rects, len1, len2) && Disjoint(rects) && QuadsMatch(M0, A, len1, doAO, rects)
    requires Painted(M0, m, len1, len2, rects)
    requires forall j', k' :: 0 <= j' < len1 && 0 <= k' < len2 ==> At(m, len1, j', k') == 0
    ensures ExactCover(M0, A, len1, len2, doAO, rects)
  {
    forall j', k' | 0 <= j' < len1 && 0 <= k' < len2
      ensures RasterAt(rects, j', k') == At(M0, len1, j', k')
    {
      assert At(m, len1, j', k') == 0;
    }
  }

  /** Cells of the quad grown at n = (j, k) all match the first one. */
  lemma RectMatches(doAO: bool, m: seq<int>, A: seq<int>, len1: int, len2: int, n: int, r: Rect)
    requires RectOk(r, len1, len2) && n == Cell(len1, r.j, r.k)
    requires At(m, len1, r.j, r.k) == r.val && At(A, len1, r.j, r.k) == r.ao
    requires forall c :: n < c < n + r.w ==> Compare(doAO, c, m, r.val, A, r.ao)
    requires forall j', k' :: r.j <= j' < r.j + r.w && r.k < k' < r.k + r.h ==>
      Compare(doAO, Cell(len1, j', k'), m, r.val, A, r.ao)
    ensures forall j', k' :: InRect(r, j', k') ==>
      At(m, len1, j', k') == r.val && (doAO ==> At(A, len1, j', k') == r.ao)
  {
    forall j', k' | InRect(r, j', k')
      ensures At(m, len1, j', k') == r.val && (doAO ==> At(A, len1, j', k') == r.ao)
    {
      if k' == r.k && j' > r.j {
        assert Compare(doAO, n + (j' - r.j), m, r.val, A, r.ao);
      }
    }
  }

  /** Appending a quad appends its face to the group of its terrain. */
  lemma AddRectsAppend(view: map<int, seq<Face>>, d: int, u: int, v: int, i: int, rects: seq<Rect>, r: Rect,
                       matToTerrain: seq<int>)
    requires HasTerrain(rects, matToTerrain) && Abs(r.val) < |matToTerrain|
    ensures HasTerrain(rects + [r], matToTerrain)
    ensures AddRects(view, d, u, v, i, rects + [r], matToTerrain)
         == AddFace(AddRects(view, d, u, v, i, rects, matToTerrain), matToTerrain[Abs(r.val)], RectFace(d, u, v, i, r))
  {
    assert forall p :: 0 <= p < |rects| ==> (rects + [r])[p] == rects[p];
    assert (rects + [r])[..|rects|] == rects;
  }

  /** A cell no quad covers is not painted. */
  lemma {:induction false} RasterNone(rs: seq<Rect>, j: int, k: int)
    requires forall q :: 0 <= q < |rs| ==> !InRect(rs[q], j, k)
    ensures RasterAt(rs, j, k) == 0
  {
    if rs != [] {
      var init := rs[..|rs| - 1];
      assert forall q :: 0 <= q < |init| ==> init[q] == rs[q];
      RasterNone(init, j, k);
    }
  }

  /** No earlier quad of an exact cover covers a cell of quad p, so after
      them that cell still joins quad p. */
  lemma CoverJoins(M0: seq<int>, A: seq<int>, len1: int, len2: int, doAO: bool, rects: seq<Rect>,
                   p: int, j: int, k: int)
    requires ExactCover(M0, A, len1, len2, doAO, rects)
    requires 0 <= p < |rects| && InRect(rects[p], j, k)
    ensures Joins(M0, A, len1, doAO, rects[..p], j, k, rects[p].val, rects[p].ao)
  {
    var init := rects[..p];
    forall q | 0 <= q < |init|
      ensures !InRect(init[q], j, k)
    {
      assert init[q] == rects[q];
    }
    RasterNone(init, j, k);
  }

  /** The mask the scan holds, read at a cell, is M0 with the recorded quads
      zeroed: maskCompare there is Joins. */
  lemma CompareJoins(M0: seq<int>, A: seq<int>, m: seq<int>, len1: int, len2: int, doAO: bool,
                     rects: seq<Rect>, j: int, k: int, val: int, ao: int)
    requires Painted(M0, m, len1, len2, rects)
    requires 0 <= j < len1 && 0 <= k < len2 && RowStart(len1, len2) <= |m| && RowStart(len1, len2) <= |A|
    ensures Compare(doAO, Cell(len1, j, k), m, val, A, ao) <==> Joins(M0, A, len1, doAO, rects, j, k, val, ao)
  {
    CellInRange(len1, len2, j, k);
  }

  /** A quad grown at the scan position, as wide and as tall as the mask
      lets it, is the greedy quad after the quads recorded so far. */
  lemma GreedyNextOf(M0: seq<int>, A: seq<int>, m: seq<int>, len1: int, len2: int, doAO: bool,
                     rects: seq<Rect>, r: Rect)
    requires Painted(M0, m, len1, len2, rects) && ClearedBefore(m, len1, len2, r.j, r.k)
    requires RectOk(r, len1, len2) && RowStart(len1, len2) <= |m| && RowStart(len1, len2) <= |A|
    requires r.j + r.w < len1 ==> !Compare(doAO, Cell(len1, r.j + r.w, r.k), m, r.val, A, r.ao)
    requires r.k + r.h < len2 ==> RowBreaks(doAO, m, A, len1, r.j, r.w, r.k + r.h, r.val, r.ao)
    ensures GreedyNext(M0, A, len1, len2, doAO, rects, r)
  {
    ClearedErased(M0, m, len1, len2, rects, r.j, r.k);
    if r.j + r.w < len1 {
      CompareJoins(M0, A, m, len1, len2, doAO, rects, r.j + r.w, r.k, r.val, r.ao);
    }
    if r.k + r.h < len2 {
      BreaksStop(M0, A, m, len1, len2, doAO, rects, r.j, r.w, r.k + r.h, r.val, r.ao);
    }
  }

  /** The cells the scan has zeroed are zero in M0 with the quads erased. */
  lemma ClearedErased(M0: seq<int>, m: seq<int>, len1: int, len2: int, rects: seq<Rect>, j: int, k: int)
    requires Painted(M0, m, len1, len2, rects) && ClearedBefore(m, len1, len2, j, k)
    ensures forall j', k' :: 0 <= j' < len1 && 0 <= k' < len2 && Before(j', k', j, k) ==>
      Erased(M0, len1, rects, j', k') == 0
  {
    forall j', k' | 0 <= j' < len1 && 0 <= k' < len2 && Before(j', k', j, k)
      ensures Erased(M0, len1, rects, j', k') == 0
    {
      assert At(m, len1, j', k') == 0;
    }
  }

  /** A row that breaks in the mask the scan holds stops the quad. */
  lemma BreaksStop(M0: seq<int>, A: seq<int>, m: seq<int>, len1: int, len2: int, doAO: bool,
                   rects: seq<Rect>, j: int, w: int, row: int, val: int, ao: int)
    requires Painted(M0, m, len1, len2, rects) && RowStart(len1, len2) <= |m| && RowStart(len1, len2) <= |A|
    requires 0 <= j && j + w <= len1 && 0 <= row < len2
    requires RowBreaks(doAO, m, A, len1, j, w, row, val, ao)
    ensures RowStops(M0, A, len1, doAO, rects, j, w, row, val, ao)
  {
    var j' :| j <= j' < j + w && !Compare(doAO, Cell(len1, j', row), m, val, A, ao);
    CompareJoins(M0, A, m, len1, len2, doAO, rects, j', row, val, ao);
  }

  /** Appending the greedy quad keeps the quads greedy. */
  lemma GreedyExtend(M0: seq<int>, A: seq<int>, len1: int, len2: int, doAO: bool, rects: seq<Rect>, r: Rect)
    requires Greedy(M0, A, len1, len2, doAO, rects) && GreedyNext(M0, A, len1, len2, doAO, rects, r)
    ensures Greedy(M0, A, len1, len2, doAO, rects + [r])
  {
    var rs := rects + [r];
    forall p | 0 <= p < |rs|
      ensures GreedyNext(M0, A, len1, len2, doAO, rs[..p], rs[p])
    {
      if p < |rects| {
        assert rs[..p] == rects[..p] && rs[p] == rects[p];
      } else {
        assert rs[..p] == rects;
      }
    }
  }

  /** Recording a quad found at the scan position (j, k) and moving past it
      keeps the scan greedy and in order. */
  lemma GreedyAppend(M0: seq<int>, A: seq<int>, m: seq<int>, len1: int, len2: int, doAO: bool,
                     rects: seq<Rect>, r: Rect, jNext: int)
    requires ScanGreedy(M0, A, len1, len2, doAO, rects, r.j, r.k)
    requires Painted(M0, m, len1, len2, rects) && ClearedBefore(m, len1, len2, r.j, r.k)
    requires RectOk(r, len1, len2) && RowStart(len1, len2) <= |m| && RowStart(len1, len2) <= |A|
    requires r.j + r.w < len1 ==> !Compare(doAO, Cell(len1, r.j + r.w, r.k), m, r.val, A, r.ao)
    requires r.k + r.h < len2 ==> RowBreaks(doAO, m, A, len1, r.j, r.w, r.k + r.h, r.val, r.ao)
    requires jNext == r.j + r.w
    ensures ScanGreedy(M0, A, len1, len2, doAO, rects + [r], jNext, r.k)
  {
    GreedyNextOf(M0, A, m, len1, len2, doAO, rects, r);
    GreedyExtend(M0, A, len1, len2, doAO, rects, r);
    var rs := rects + [r];
    assert forall p :: 0 <= p < |rects| ==> rs[p] == rects[p];
  }

  /** The greedy exact cover of a mask is unique: the quads, their order,
      their origins, widths and heights are all fixed by the mask. */
  lemma GreedyUnique(M0: seq<int>, A: seq<int>, len1: int, len2: int, doAO: bool,
                     rs1: seq<Rect>, rs2: seq<Rect>)
    requires ExactCover(M0, A, len1, len2, doAO, rs1) && Greedy(M0, A, len1, len2, doAO, rs1)
    requires ExactCover(M0, A, len1, len2, doAO, rs2) && Greedy(M0, A, len1, len2, doAO, rs2)
    ensures rs1 == rs2
  {
    GreedyFrom(M0, A, len1, len2, doAO, rs1, rs2, 0);
  }

  /** Two greedy exact covers that agree on their first p quads are equal. */
  lemma {:induction false} GreedyFrom(M0: seq<int>, A: seq<int>, len1: int, len2: int, doAO: bool,
                                      rs1: seq<Rect>, rs2: seq<Rect>, p: int)
    requires ExactCover(M0, A, len1, len2, doAO, rs1) && Greedy(M0, A, len1, len2, doAO, rs1)
    requires ExactCover(M0, A, len1, len2, doAO, rs2) && Greedy(M0, A, len1, len2, doAO, rs2)
    requires 0 <= p <= |rs1| && p <= |rs2| && rs1[..p] == rs2[..p]
    ensures rs1 == rs2
    decreases |rs1| - p
  {
    if p < |rs1| && p < |rs2| {
      GreedyStep(M0, A, len1, len2, doAO, rs1, rs2, p);
      PrefixStep(rs1, rs2, p);
      GreedyFrom(M0, A, len1, len2, doAO, rs1, rs2, p + 1);
    } else {
      CoverEnds(M0, A, len1, len2, doAO, rs1, rs2, p);
    }
  }

  lemma PrefixStep(rs1: seq<Rect>, rs2: seq<Rect>, p: int)
    requires 0 <= p < |rs1| && p < |rs2| && rs1[..p] == rs2[..p] && rs1[p] == rs2[p]
    ensures rs1[..p + 1] == rs2[..p + 1]
  {
    assert rs1[..p + 1] == rs1[..p] + [rs1[p]] && rs2[..p + 1] == rs2[..p] + [rs2[p]];
  }

  /** Two exact covers, one a prefix of the other, are the same: the longer
      one's next quad would cover a face the shorter leaves uncovered. */
  lemma CoverEnds(M0: seq<int>, A: seq<int>, len1: int, len2: int, doAO: bool, rs1: seq<Rect>, rs2: seq<Rect>,
                  p: int)
    requires ExactCover(M0, A, len1, len2, doAO, rs1) && ExactCover(M0, A, len1, len2, doAO, rs2)
    requires 0 <= p <= |rs1| && p <= |rs2| && (p == |rs1| || p == |rs2|) && rs1[..p] == rs2[..p]
    ensures rs1 == rs2
  {
    assert rs1[..|rs1|] == rs1 && rs2[..|rs2|] == rs2;
    if p < |rs1| {
      OriginUnpainted(M0, A, len1, len2, doAO, rs1, p);
      assert false;
    } else if p < |rs2| {
      OriginUnpainted(M0, A, len1, len2, doAO, rs2, p);
      assert false;
    }
  }

  /** The origin of quad p of an exact cover is a face cell no earlier quad
      paints. */
  lemma OriginUnpainted(M0: seq<int>, A: seq<int>, len1: int, len2: int, doAO: bool, rs: seq<Rect>, p: int)
    requires ExactCover(M0, A, len1, len2, doAO, rs) && 0 <= p < |rs|
    ensures 0 <= rs[p].j < len1 && 0 <= rs[p].k < len2
    ensures RasterAt(rs[..p], rs[p].j, rs[p].k) == 0 && At(M0, len1, rs[p].j, rs[p].k) != 0
  {
    var r := rs[p];
    assert RectOk(r, len1, len2) && InRect(r, r.j, r.k);
    CoverJoins(M0, A, len1, len2, doAO, rs, p, r.j, r.k);
  }

  /** Quad r, grown after the quads base: it is the greedy one, lies in the
      mask, every cell of it joins it, and its AO is its origin's. */
  ghost predicate Grown(M0: seq<int>, A: seq<int>, len1: int, len2: int, doAO: bool, base: seq<Rect>, r: Rect)
  {
    && RectOk(r, len1, len2) && GreedyNext(M0, A, len1, len2, doAO, base, r)
    && (forall j, k :: InRect(r, j, k) ==> Joins(M0, A, len1, doAO, base, j, k, r.val, r.ao))
    && At(A, len1, r.j, r.k) == r.ao
  }

  /** Quad p of a greedy exact cover is grown after the quads before it. */
  lemma GrownAt(M0: seq<int>, A: seq<int>, len1: int, len2: int, doAO: bool, rs: seq<Rect>, p: int)
    requires ExactCover(M0, A, len1, len2, doAO, rs) && Greedy(M0, A, len1, len2, doAO, rs)
    requires 0 <= p < |rs|
    ensures Grown(M0, A, len1, len2, doAO, rs[..p], rs[p])
  {
    forall j, k | InRect(rs[p], j, k)
      ensures Joins(M0, A, len1, doAO, rs[..p], j, k, rs[p].val, rs[p].ao)
    {
      CoverJoins(M0, A, len1, len2, doAO, rs, p, j, k);
    }
  }

  /** Two greedy exact covers that agree on their first p quads agree on
      quad p too. */
  lemma GreedyStep(M0: seq<int>, A: seq<int>, len1: int, len2: int, doAO: bool,
                   rs1: seq<Rect>, rs2: seq<Rect>, p: int)
    requires ExactCover(M0, A, len1, len2, doAO, rs1) && Greedy(M0, A, len1, len2, doAO, rs1)
    requires ExactCover(M0, A, len1, len2, doAO, rs2) && Greedy(M0, A, len1, len2, doAO, rs2)
    requires 0 <= p < |rs1| && p < |rs2| && rs1[..p] == rs2[..p]
    ensures rs1[p] == rs2[p]
  {
    GrownAt(M0, A, len1, len2, doAO, rs1, p);
    GrownAt(M0, A, len1, len2, doAO, rs2, p);
    SameQuad(M0, A, len1, len2, doAO, rs1[..p], rs1[p], rs2[p]);
  }

  /** After the same quads, the greedy quad is unique. */
  lemma SameQuad(M0: seq<int>, A: seq<int>, len1: int, len2: int, doAO: bool, base: seq<Rect>, r1: Rect, r2: Rect)
    requires Grown(M0, A, len1, len2, doAO, base, r1) && Grown(M0, A, len1, len2, doAO, base, r2)
    ensures r1 == r2
  {
    // the same origin: each origin is the first non-zero cell left
    assert Joins(M0, A, len1, doAO, base, r1.j, r1.k, r1.val, r1.ao) by {
      assert InRect(r1, r1.j, r1.k);
    }
    assert Joins(M0, A, len1, doAO, base, r2.j, r2.k, r2.val, r2.ao) by {
      assert InRect(r2, r2.j, r2.k);
    }
    if Before(r1.j, r1.k, r2.j, r2.k) {
      assert false;
    } else if Before(r2.j, r2.k, r1.j, r1.k) {
      assert false;
    }
    assert r1.j == r2.j && r1.k == r2.k;
    // the same width: the cell after the narrower one would join the wider
    if r1.w < r2.w {
      assert false;
    } else if r2.w < r1.w {
      assert false;
    }
    // the same height: the row above the shorter one would join the taller
    if r1.h < r2.h {
      assert false;
    } else if r2.h < r1.h {
      assert false;
    }
  }

  /** Greedy depends only on the mask's cells and, with AO, on the AO of its
      face cells: a second mask that agrees there has the same greedy quads. */
  lemma GreedySame(M0: seq<int>, A: seq<int>, M1: seq<int>, A1: seq<int>, len1: int, len2: int, doAO: bool,
                   rects: seq<Rect>)
    requires forall j, k :: 0 <= j < len1 && 0 <= k < len2 ==> At(M1, len1, j, k) == At(M0, len1, j, k)
    requires doAO ==> forall j, k :: 0 <= j < len1 && 0 <= k < len2 && At(M0, len1, j, k) != 0 ==>
               At(A1, len1, j, k) == At(A, len1, j, k)
    requires forall p :: 0 <= p < |rects| ==> RectOk(rects[p], len1, len2)
    requires Greedy(M0, A, len1, len2, doAO, rects)
    ensures Greedy(M1, A1, len1, len2, doAO, rects)
  {
    forall p | 0 <= p < |rects|
      ensures GreedyNext(M1, A1, len1, len2, doAO, rects[..p], rects[p])
    {
      NextSame(M0, A, M1, A1, len1, len2, doAO, rects[..p], rects[p]);
    }
  }

  lemma NextSame(M0: seq<int>, A: seq<int>, M1: seq<int>, A1: seq<int>, len1: int, len2: int, doAO: bool,
                 rs: seq<Rect>, r: Rect)
    requires forall j, k :: 0 <= j < len1 && 0 <= k < len2 ==> At(M1, len1, j, k) == At(M0, len1, j, k)
    requires doAO ==> forall j, k :: 0 <= j < len1 && 0 <= k < len2 && At(M0, len1, j, k) != 0 ==>
               At(A1, len1, j, k) == At(A, len1, j, k)
    requires RectOk(r, len1, len2) && GreedyNext(M0, A, len1, len2, doAO, rs, r)
    ensures GreedyNext(M1, A1, len1, len2, doAO, rs, r)
  {
    if r.j + r.w < len1 {
      JoinsSame(M0, A, M1, A1, len1, len2, doAO, rs, r.j + r.w, r.k, r.val, r.ao);
    }
    if r.k + r.h < len2 {
      var j :| r.j <= j < r.j + r.w && !Joins(M0, A, len1, doAO, rs, j, r.k + r.h, r.val, r.ao);
      JoinsSame(M0, A, M1, A1, len1, len2, doAO, rs, j, r.k + r.h, r.val, r.ao);
    }
  }

  lemma JoinsSame(M0: seq<int>, A: seq<int>, M1: seq<int>, A1: seq<int>, len1: int, len2: int, doAO: bool,
                  rs: seq<Rect>, j: int, k: int, val: int, ao: int)
    requires forall j, k :: 0 <= j < len1 && 0 <= k < len2 ==> At(M1, len1, j, k) == At(M0, len1, j, k)
    requires doAO ==> forall j, k :: 0 <= j < len1 && 0 <= k < len2 && At(M0, len1, j, k) != 0 ==>
               At(A1, len1, j, k) == At(A, len1, j, k)
    requires 0 <= j < len1 && 0 <= k < len2 && val != 0
    ensures Joins(M1, A1, len1, doAO, rs, j, k, val, ao) == Joins(M0, A, len1, doAO, rs, j, k, val, ao)
  {
  }

  /** The clauses of an exact cover, gathered. */
  lemma ExactFrom(M0: seq<int>, A: seq<int>, len1: int, len2: int, doAO: bool, rects: seq<Rect>)
    requires (forall p :: 0 <= p < |rects| ==> RectOk(rects[p], len1, len2)) && Disjoint(rects)
    requires forall p, j, k :: 0 <= p < |rects| && InRect(rects[p], j, k) ==>
               At(M0, len1, j, k) == rects[p].val && (doAO ==> At(A, len1, j, k) == rects[p].ao)
    requires forall p :: 0 <= p < |rects| ==> At(A, len1, rects[p].j, rects[p].k) == rects[p].ao
    requires forall j, k :: 0 <= j < len1 && 0 <= k < len2 ==> RasterAt(rects, j, k) == At(M0, len1, j, k)
    ensures ExactCover(M0, A, len1, len2, doAO, rects)
  {
  }
}
