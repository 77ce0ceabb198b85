/** The solidity lookup the AO pass queries (terrainMesher.js 683-742): for
    transposed coordinates in [-1, size] it finds which of the 27 chunks of
    the neighbourhood holds the voxel, and where in it. */
module Solidity {
  import opened Common
  import opened Views

  /** Where coordinate x falls against a chunk of side `size`: 0 below it,
      1 inside, 2 above. */
  function Loc(size: int, x: int): int
  {
    if x < 0 then 0 else if x < size then 1 else 2
  }

  /** Coordinate of x inside the neighbour chunk that holds it:
      the row of `edgeCoordLookup`. */
  function EdgeCoord(size: int, x: int): int
  {
    if x < 0 then size - 1 else if x < size then x else 0
  }

  /** Coordinate x clamped into the chunk: the row of `missingCoordLookup`. */
  function Clamp(size: int, x: int): int
  {
    if x < 0 then 0 else if x < size then x else size - 1
  }

  /** The first `bound` entries of the three coordinate tables hold the rows
      for coordinates -1 .. bound - 2 (entry n is coordinate n - 1). */
  ghost predicate CoordTablesUpTo(size: int, c2l: seq<int>, edge: seq<int>, missing: seq<int>, bound: int)
  {
    && bound <= |c2l| && bound <= |edge| && bound <= |missing|
    && (forall n :: 0 <= n < bound ==> c2l[n] == Loc(size, n - 1))
    && (forall n :: 0 <= n < bound ==> edge[n] == EdgeCoord(size, n - 1))
    && (forall n :: 0 <= n < bound ==> missing[n] == Clamp(size, n - 1))
  }

  /** The view a slot of the transposed neighbourhood resolves to: the
      neighbour at offset (a, b, c) of the sweep, or the centre when that
      neighbour is missing (`nab || centerChunk`). */
  function SlotView(nabs: seq<Option<seq<int>>>, cs: int, d: int, a: int, b: int, c: int): VoxView
    requires |nabs| == 27 && IsAxis(d) && IsOffset(a) && IsOffset(b) && IsOffset(c)
  {
    var o := Untranspose(d, a, b, c);
    SlotIndexRange(o.x, o.y, o.z);
    var s := SlotIndex(o.x, o.y, o.z);
    match nabs[s]
    case Some(data) => VoxView(data, cs, d, 0)
    case None =>
      var centre := if nabs[Centre].Some? then nabs[Centre].value else [];
      VoxView(centre, cs, d, 0)
  }

  /** Lookup type of a slot: 1 when the neighbour is missing, 2 for the
      centre chunk itself, 0 for a present neighbour. Every slot gets its own
      transposed view object, so the `nab === centerChunk` identity test
      holds exactly for the centre slot. */
  function SlotType(nabs: seq<Option<seq<int>>>, d: int, a: int, b: int, c: int): int
    requires |nabs| == 27 && IsAxis(d) && IsOffset(a) && IsOffset(b) && IsOffset(c)
  {
    var o := Untranspose(d, a, b, c);
    SlotIndexRange(o.x, o.y, o.z);
    var s := SlotIndex(o.x, o.y, o.z);
    if nabs[s].None? then 1 else if s == Centre then 2 else 0
  }

  /** Two offsets with the same slot are the same offset. */
  lemma SlotInjective(a: int, b: int, c: int, a': int, b': int, c': int)
    requires IsOffset(a) && IsOffset(b) && IsOffset(c) && IsOffset(a') && IsOffset(b') && IsOffset(c')
    requires SlotIndex(a, b, c) == SlotIndex(a', b', c')
    ensures a == a' && b == b' && c == c'
  {
  }

  /** The slots of offsets numbered below `bound` are set up for neighbours
      `nabs`, chunk side cs and sweep axis d. */
  ghost predicate SlotsUpTo(vl: seq<VoxView>, vt: seq<int>, nabs: seq<Option<seq<int>>>, cs: int, d: int, bound: int)
    requires |nabs| == 27 && IsAxis(d) && bound <= 27
  {
    && |vl| == 27 && |vt| == 27
    && forall a, b, c {:trigger SlotIndex(a, b, c)} ::
         IsOffset(a) && IsOffset(b) && IsOffset(c) && SlotIndex(a, b, c) < bound ==>
           && 0 <= SlotIndex(a, b, c)
           && vl[SlotIndex(a, b, c)] == SlotView(nabs, cs, d, a, b, c)
           && vt[SlotIndex(a, b, c)] == SlotType(nabs, d, a, b, c)
  }

  /** Setting up the next slot extends the set-up prefix by one. */
  lemma SlotsExtend(vl: seq<VoxView>, vt: seq<int>, nabs: seq<Option<seq<int>>>, cs: int, d: int, a: int, b: int, c: int)
    requires |nabs| == 27 && IsAxis(d) && IsOffset(a) && IsOffset(b) && IsOffset(c)
    requires SlotIndex(a, b, c) < 27 && SlotsUpTo(vl, vt, nabs, cs, d, SlotIndex(a, b, c))
    ensures 0 <= SlotIndex(a, b, c)
    ensures var n := SlotIndex(a, b, c);
      SlotsUpTo(vl[n := SlotView(nabs, cs, d, a, b, c)], vt[n := SlotType(nabs, d, a, b, c)], nabs, cs, d, n + 1)
  {
    SlotIndexRange(a, b, c);
    var n := SlotIndex(a, b, c);
    var vl', vt' := vl[n := SlotView(nabs, cs, d, a, b, c)], vt[n := SlotType(nabs, d, a, b, c)];
    forall a', b', c' | IsOffset(a') && IsOffset(b') && IsOffset(c') && SlotIndex(a', b', c') < n + 1
      ensures 0 <= SlotIndex(a', b', c')
      ensures vl'[SlotIndex(a', b', c')] == SlotView(nabs, cs, d, a', b', c')
      ensures vt'[SlotIndex(a', b', c')] == SlotType(nabs, d, a', b', c')
    {
      SlotIndexRange(a', b', c');
      if SlotIndex(a', b', c') == n {
        SlotInjective(a, b, c, a', b', c');
      }
    }
  }

  /** What a set-up slot holds, by offset. */
  lemma SlotAt(vl: seq<VoxView>, vt: seq<int>, nabs: seq<Option<seq<int>>>, cs: int, d: int, a: int, b: int, c: int)
    requires |nabs| == 27 && IsAxis(d) && SlotsUpTo(vl, vt, nabs, cs, d, 27)
    requires IsOffset(a) && IsOffset(b) && IsOffset(c)
    ensures 0 <= SlotIndex(a, b, c) < 27
    ensures vl[SlotIndex(a, b, c)] == SlotView(nabs, cs, d, a, b, c)
    ensures vt[SlotIndex(a, b, c)] == SlotType(nabs, d, a, b, c)
  {
    SlotIndexRange(a, b, c);
  }

  /** A snapshot of the lookup state, as `voxelIsSolid` reads it. */
  datatype Tables = Tables(
    solidity: seq<bool>,       // voxelIDtoSolidity
    coordToLoc: seq<int>,
    edgeCoordLookup: seq<int>,
    missingCoordLookup: seq<int>,
    voxLookup: seq<VoxView>,
    voxTypeLookup: seq<int>)
  {
    /** Whether a coordinate has an entry in all three coordinate tables. */
    predicate Covers(x: int)
    {
      0 <= x + 1 < |coordToLoc| && x + 1 < |edgeCoordLookup| && x + 1 < |missingCoordLookup|
    }

    /** voxelIsSolid(i, j, k). A read the tables do not cover is `undefined`
        in JavaScript, and `voxelIDtoSolidity[undefined]` is falsy: false. */
    function IsSolid(i: int, j: int, k: int): bool
    {
      if !(Covers(i) && Covers(j) && Covers(k)) then false
      else
        var ix := coordToLoc[i + 1] * 9 + coordToLoc[j + 1] * 3 + coordToLoc[k + 1];
        if !(0 <= ix < |voxLookup| && ix < |voxTypeLookup|) then false
        else
          var typ := voxTypeLookup[ix];
          IdSolid(solidity, ReadView(voxLookup[ix],
            Pick(typ, i, edgeCoordLookup[i + 1], missingCoordLookup[i + 1]),
            Pick(typ, j, edgeCoordLookup[j + 1], missingCoordLookup[j + 1]),
            Pick(typ, k, edgeCoordLookup[k + 1], missingCoordLookup[k + 1])))
    }
  }

  /** The coordinate read for x: x itself in the centre chunk (type 2),
      else its row of `[edgeCoordLookup, missingCoordLookup][type]`. */
  function Pick(typ: int, x: int, edge: int, missing: int): int
  {
    if typ == 2 then x else if typ == 0 then edge else missing
  }

  /** `voxArray.get(ci, cj, ck)`; -1, no voxel ID, for a read outside the
      chunk (`undefined` in JavaScript). */
  function ReadView(view: VoxView, ci: int, cj: int, ck: int): int
  {
    if view.Readable(ci, cj, ck) then view.Get(ci, cj, ck) else -1
  }

  function IdSolid(solidity: seq<bool>, id: int): bool
  {
    0 <= id < |solidity| && solidity[id]
  }

  /** The lookup state after preparing for neighbours `nabs`, side `size`
      and sweep axis `d`. */
  ghost predicate Prepared(t: Tables, nabs: seq<Option<seq<int>>>, size: int, d: int)
  {
    && |nabs| == 27 && IsAxis(d) && 0 <= size
    && CoordTablesUpTo(size, t.coordToLoc, t.edgeCoordLookup, t.missingCoordLookup, size + 2)
    && SlotsUpTo(t.voxLookup, t.voxTypeLookup, nabs, size, d, 27)
  }

  /** The neighbour at offset (a, b, c) of the sweep along d. */
  function ChunkAt(nabs: seq<Option<seq<int>>>, d: int, a: int, b: int, c: int): Option<seq<int>>
    requires |nabs| == 27 && IsOffset(a) && IsOffset(b) && IsOffset(c)
  {
    var o := Untranspose(d, a, b, c);
    SlotIndexRange(o.x, o.y, o.z);
    nabs[SlotIndex(o.x, o.y, o.z)]
  }

  /** Voxel at transposed coordinates (x, y, z) of chunk data of side size;
      -1, which no table maps to a solid voxel, for a read outside it. */
  function ReadChunk(data: seq<int>, size: int, d: int, x: int, y: int, z: int): int
  {
    ReadView(VoxView(data, size, d, 0), x, y, z)
  }

  /** Reference reading of the neighbourhood, with no tables: transposed
      coordinate x of [-1, size] lies in the chunk at offset x / size (floor
      division), at x % size inside it; a missing chunk is replaced by the
      centre chunk read at the clamped coordinate. */
  function NeighbourhoodVoxel(nabs: seq<Option<seq<int>>>, size: int, d: int, i: int, j: int, k: int): int
    requires |nabs| == 27 && 0 < size
    requires -1 <= i <= size && -1 <= j <= size && -1 <= k <= size
  {
    FloorDiv(size, i);
    FloorDiv(size, j);
    FloorDiv(size, k);
    match ChunkAt(nabs, d, i / size, j / size, k / size)
    case Some(data) => ReadChunk(data, size, d, i % size, j % size, k % size)
    case None =>
      var centre := if nabs[Centre].Some? then nabs[Centre].value else [];
      ReadChunk(centre, size, d, Clamp(size, i), Clamp(size, j), Clamp(size, k))
  }

  /** For x in [-1, size], floor division by size gives the offset of the
      chunk holding x and the remainder its coordinate there. */
  lemma FloorDiv(size: int, x: int)
    requires 0 < size && -1 <= x <= size
    ensures x / size == Loc(size, x) - 1 && x % size == EdgeCoord(size, x)
    ensures 0 <= x % size < size
  {
    if x < 0 {
      assert x == size * -1 + (size - 1);
    } else if x < size {
    } else {
      assert x == size * 1 + 0;
    }
  }

  /** What the lookup reads for (i, j, k), spelled out through the slot
      functions instead of the tables. */
  function SlotRead(nabs: seq<Option<seq<int>>>, size: int, d: int, i: int, j: int, k: int): int
    requires |nabs| == 27 && IsAxis(d)
  {
    var a, b, c := Loc(size, i) - 1, Loc(size, j) - 1, Loc(size, k) - 1;
    var typ := SlotType(nabs, d, a, b, c);
    ReadView(SlotView(nabs, size, d, a, b, c),
      Pick(typ, i, EdgeCoord(size, i), Clamp(size, i)),
      Pick(typ, j, EdgeCoord(size, j), Clamp(size, j)),
      Pick(typ, k, EdgeCoord(size, k), Clamp(size, k)))
  }

  /** A prepared table reads what SlotRead describes. */
  lemma IsSolidReadsSlots(t: Tables, nabs: seq<Option<seq<int>>>, size: int, d: int, i: int, j: int, k: int)
    requires Prepared(t, nabs, size, d)
    requires -1 <= i <= size && -1 <= j <= size && -1 <= k <= size
    ensures t.IsSolid(i, j, k) == IdSolid(t.solidity, SlotRead(nabs, size, d, i, j, k))
  {
    CoordRow(t, size, i);
    CoordRow(t, size, j);
    CoordRow(t, size, k);
    var a, b, c := Loc(size, i) - 1, Loc(size, j) - 1, Loc(size, k) - 1;
    SlotAt(t.voxLookup, t.voxTypeLookup, nabs, size, d, a, b, c);
    IsSolidUnfold(t, size, i, j, k);
  }

  /** The rows of the coordinate tables for coordinate x. */
  lemma CoordRow(t: Tables, size: int, x: int)
    requires CoordTablesUpTo(size, t.coordToLoc, t.edgeCoordLookup, t.missingCoordLookup, size + 2)
    requires -1 <= x <= size
    ensures t.Covers(x)
    ensures t.coordToLoc[x + 1] == Loc(size, x)
    ensures t.edgeCoordLookup[x + 1] == EdgeCoord(size, x) && t.missingCoordLookup[x + 1] == Clamp(size, x)
  {
    assert t.coordToLoc[x + 1] == Loc(size, x + 1 - 1);
  }

  /** voxelIsSolid with the coordinate rows replaced by what they hold. */
  lemma IsSolidUnfold(t: Tables, size: int, i: int, j: int, k: int)
    requires t.Covers(i) && t.Covers(j) && t.Covers(k) && |t.voxLookup| == 27 && |t.voxTypeLookup| == 27
    requires t.coordToLoc[i + 1] == Loc(size, i) && t.coordToLoc[j + 1] == Loc(size, j) && t.coordToLoc[k + 1] == Loc(size, k)
    requires t.edgeCoordLookup[i + 1] == EdgeCoord(size, i) && t.missingCoordLookup[i + 1] == Clamp(size, i)
    requires t.edgeCoordLookup[j + 1] == EdgeCoord(size, j) && t.missingCoordLookup[j + 1] == Clamp(size, j)
    requires t.edgeCoordLookup[k + 1] == EdgeCoord(size, k) && t.missingCoordLookup[k + 1] == Clamp(size, k)
    ensures var ix := SlotIndex(Loc(size, i) - 1, Loc(size, j) - 1, Loc(size, k) - 1);
      var typ := t.voxTypeLookup[ix];
      t.IsSolid(i, j, k) == IdSolid(t.solidity, ReadView(t.voxLookup[ix],
        Pick(typ, i, EdgeCoord(size, i), Clamp(size, i)),
        Pick(typ, j, EdgeCoord(size, j), Clamp(size, j)),
        Pick(typ, k, EdgeCoord(size, k), Clamp(size, k))))
  {
  }

  /** SlotRead is the reference reading of the neighbourhood. */
  lemma SlotReadIsNeighbourhoodVoxel(nabs: seq<Option<seq<int>>>, size: int, d: int, i: int, j: int, k: int)
    requires |nabs| == 27 && IsAxis(d) && 0 < size
    requires -1 <= i <= size && -1 <= j <= size && -1 <= k <= size
    ensures SlotRead(nabs, size, d, i, j, k) == NeighbourhoodVoxel(nabs, size, d, i, j, k)
  {
    FloorDiv(size, i);
    FloorDiv(size, j);
    FloorDiv(size, k);
    var a, b, c := Loc(size, i) - 1, Loc(size, j) - 1, Loc(size, k) - 1;
    var o := Untranspose(d, a, b, c);
    SlotIndexRange(o.x, o.y, o.z);
    if SlotIndex(o.x, o.y, o.z) == Centre {
      UntransposeZero(d, a, b, c);
    }
    SlotReadCases(nabs, size, d, i, j, k);
  }

  /** The three kinds of slot: missing, the centre, a present neighbour. */
  lemma SlotReadCases(nabs: seq<Option<seq<int>>>, size: int, d: int, i: int, j: int, k: int)
    requires |nabs| == 27 && IsAxis(d) && 0 < size
    requires -1 <= i <= size && -1 <= j <= size && -1 <= k <= size
    requires i / size == Loc(size, i) - 1 && j / size == Loc(size, j) - 1 && k / size == Loc(size, k) - 1
    requires i % size == EdgeCoord(size, i) && j % size == EdgeCoord(size, j) && k % size == EdgeCoord(size, k)
    requires var o := Untranspose(d, Loc(size, i) - 1, Loc(size, j) - 1, Loc(size, k) - 1);
      SlotIndex(o.x, o.y, o.z) == Centre ==> Loc(size, i) == 1 && Loc(size, j) == 1 && Loc(size, k) == 1
    ensures SlotRead(nabs, size, d, i, j, k) == NeighbourhoodVoxel(nabs, size, d, i, j, k)
  {
  }

  /** Every lookup of a prepared table reads the voxel the neighbourhood
      holds at that coordinate: from the neighbour chunk with -1 mapped to
      size - 1 and size to 0, or, when that neighbour is missing, from the
      centre chunk at the clamped coordinate. */
  lemma IsSolidReadsNeighbourhood(t: Tables, nabs: seq<Option<seq<int>>>, size: int, d: int, i: int, j: int, k: int)
    requires Prepared(t, nabs, size, d) && 0 < size
    requires -1 <= i <= size && -1 <= j <= size && -1 <= k <= size
    ensures t.IsSolid(i, j, k) == IdSolid(t.solidity, NeighbourhoodVoxel(nabs, size, d, i, j, k))
  {
    IsSolidReadsSlots(t, nabs, size, d, i, j, k);
    SlotReadIsNeighbourhoodVoxel(nabs, size, d, i, j, k);
  }

  /** The only offset that untransposes to the centre is the centre. */
  lemma UntransposeZero(d: int, a: int, b: int, c: int)
    requires IsAxis(d)
    requires var o := Untranspose(d, a, b, c); o.x == 0 && o.y == 0 && o.z == 0
    ensures a == 0 && b == 0 && c == 0
  {
    var o := Untranspose(d, a, b, c);
    assert o.Get(0) == 0 && o.Get(1) == 0 && o.Get(2) == 0;
  }

  /** Lookups land in one of the 27 slots and, in it, inside the chunk. */
  lemma LookupInRange(t: Tables, nabs: seq<Option<seq<int>>>, size: int, d: int, i: int, j: int, k: int)
    requires Prepared(t, nabs, size, d) && 0 < size
    requires -1 <= i <= size && -1 <= j <= size && -1 <= k <= size
    ensures var ix := t.coordToLoc[i + 1] * 9 + t.coordToLoc[j + 1] * 3 + t.coordToLoc[k + 1];
      0 <= ix < 27
    ensures var typ := t.voxTypeLookup[t.coordToLoc[i + 1] * 9 + t.coordToLoc[j + 1] * 3 + t.coordToLoc[k + 1]];
      typ == 2 ==> 0 <= i < size && 0 <= j < size && 0 <= k < size
    ensures 0 <= t.edgeCoordLookup[i + 1] < size && 0 <= t.missingCoordLookup[i + 1] < size
  {
    CoordRow(t, size, i);
    CoordRow(t, size, j);
    CoordRow(t, size, k);
    var a, b, c := Loc(size, i) - 1, Loc(size, j) - 1, Loc(size, k) - 1;
    assert t.coordToLoc[i + 1] * 9 + t.coordToLoc[j + 1] * 3 + t.coordToLoc[k + 1] == SlotIndex(a, b, c);
    SlotAt(t.voxLookup, t.voxTypeLookup, nabs, size, d, a, b, c);
    if SlotType(nabs, d, a, b, c) == 2 {
      UntransposeZero(d, a, b, c);
    }
  }

  /** The lookup state of the mesher (`solidityLookupInittedSize`,
      `voxelIDtoSolidity`, the three coordinate tables, `voxLookup`,
      `voxTypeLookup`). */
  class SolidityLookup {
    const solidLookupArr: seq<bool>
    var initSize: int
    var solidity: seq<bool>
    var coordToLoc: seq<int>
    var edgeCoordLookup: seq<int>
    var missingCoordLookup: seq<int>
    var voxLookup: seq<VoxView>
    var voxTypeLookup: seq<int>

    /** The coordinate tables are those of the size they were last built for. */
    ghost predicate Valid()
      reads this
    {
      && |voxLookup| == 27 && |voxTypeLookup| == 27
      && (initSize != -1 ==> 0 <= initSize && CoordTablesUpTo(initSize, coordToLoc, edgeCoordLookup, missingCoordLookup, initSize + 2))
      && (initSize != -1 ==> solidity == solidLookupArr)
    }

    function Snapshot(): (t: Tables)
      reads this
      ensures t.solidity == solidity && t.voxLookup == voxLookup
    {
      Tables(solidity, coordToLoc, edgeCoordLookup, missingCoordLookup, voxLookup, voxTypeLookup)
    }

    /** The initial values: placeholder tables and 27 empty slots (an empty
        view stands for `null`). */
    constructor (solidLookup: seq<bool>)
      ensures Valid() && initSize == -1 && solidLookupArr == solidLookup
    {
      solidLookupArr := solidLookup;
      initSize := -1;
      solidity := [false, true];
      coordToLoc := [0, 1, 1, 1, 1, 1, 2];
      edgeCoordLookup := [3, 0, 1, 2, 3, 0];
      missingCoordLookup := [0, 0, 1, 2, 3, 3];
      voxLookup := seq(27, _ => VoxView([], 0, 0, 0));
      voxTypeLookup := seq(27, _ => 0);
    }

    /** prepareSolidityLookup: rebuild the coordinate tables when the chunk
        size changed, then point the 27 slots at the neighbourhood. */
    method PrepareSolidityLookup(nabs: seq<Option<seq<int>>>, d: int, size: int)
      requires Valid() && |nabs| == 27 && IsAxis(d) && 0 <= size
      modifies this
      ensures Valid() && initSize == size
      ensures Prepared(Snapshot(), nabs, size, d)
      ensures solidity == solidLookupArr
      ensures old(initSize) == size ==>
        coordToLoc == old(coordToLoc) && edgeCoordLookup == old(edgeCoordLookup) && missingCoordLookup == old(missingCoordLookup)
    {
      if initSize != size {
        initSize := size;
        solidity := solidLookupArr;
        FillCoordTables(size);
      }
      FillSlots(nabs, d, size);
    }

    /** The loop over coordinates -1 .. size of prepareSolidityLookup. */
    method FillCoordTables(size: int)
      requires 0 <= size
      modifies this`coordToLoc, this`edgeCoordLookup, this`missingCoordLookup
      ensures CoordTablesUpTo(size, coordToLoc, edgeCoordLookup, missingCoordLookup, size + 2)
    {
      var x := -1;
      while x < size + 1
        invariant -1 <= x <= size + 1
        invariant CoordTablesUpTo(size, coordToLoc, edgeCoordLookup, missingCoordLookup, x + 1)
      {
        coordToLoc := SetAt(coordToLoc, x + 1, Loc(size, x));
        edgeCoordLookup := SetAt(edgeCoordLookup, x + 1, EdgeCoord(size, x));
        missingCoordLookup := SetAt(missingCoordLookup, x + 1, Clamp(size, x));
        x := x + 1;
      }
    }

    /** The loops over the 27 slots of prepareSolidityLookup, slot
        i * 9 + j * 3 + k holding the neighbour at offset (i - 1, j - 1, k - 1)
        of the sweep. */
    method FillSlots(nabs: seq<Option<seq<int>>>, d: int, size: int)
      requires |nabs| == 27 && IsAxis(d) && |voxLookup| == 27 && |voxTypeLookup| == 27
      modifies this`voxLookup, this`voxTypeLookup
      ensures SlotsUpTo(voxLookup, voxTypeLookup, nabs, size, d, 27)
    {
      var i := 0;
      while i < 3
        invariant 0 <= i <= 3
        invariant SlotsUpTo(voxLookup, voxTypeLookup, nabs, size, d, i * 9)
      {
        var j := 0;
        while j < 3
          invariant 0 <= j <= 3
          invariant SlotsUpTo(voxLookup, voxTypeLookup, nabs, size, d, i * 9 + j * 3)
        {
          FillSlotRow(nabs, d, size, i, j);
          j := j + 1;
        }
        i := i + 1;
      }
    }

    /** The innermost loop: slots i * 9 + j * 3 + k for k = 0, 1, 2. */
    method FillSlotRow(nabs: seq<Option<seq<int>>>, d: int, size: int, i: int, j: int)
      requires |nabs| == 27 && IsAxis(d) && 0 <= i < 3 && 0 <= j < 3
      requires SlotsUpTo(voxLookup, voxTypeLookup, nabs, size, d, i * 9 + j * 3)
      modifies this`voxLookup, this`voxTypeLookup
      ensures SlotsUpTo(voxLookup, voxTypeLookup, nabs, size, d, i * 9 + j * 3 + 3)
    {
      var k := 0;
      while k < 3
        invariant 0 <= k <= 3
        invariant SlotsUpTo(voxLookup, voxTypeLookup, nabs, size, d, i * 9 + j * 3 + k)
      {
        FillSlot(nabs, d, size, i, j, k);
        k := k + 1;
      }
    }

    /** The body of the innermost loop: slot i * 9 + j * 3 + k. */
    method FillSlot(nabs: seq<Option<seq<int>>>, d: int, size: int, i: int, j: int, k: int)
      requires |nabs| == 27 && IsAxis(d) && 0 <= i < 3 && 0 <= j < 3 && 0 <= k < 3
      requires SlotsUpTo(voxLookup, voxTypeLookup, nabs, size, d, SlotIndex(i - 1, j - 1, k - 1))
      modifies this`voxLookup, this`voxTypeLookup
      ensures SlotsUpTo(voxLookup, voxTypeLookup, nabs, size, d, SlotIndex(i - 1, j - 1, k - 1) + 1)
    {
      var ix := i * 9 + j * 3 + k;
      SlotsExtend(voxLookup, voxTypeLookup, nabs, size, d, i - 1, j - 1, k - 1);
      voxTypeLookup := voxTypeLookup[ix := SlotType(nabs, d, i - 1, j - 1, k - 1)];
      voxLookup := voxLookup[ix := SlotView(nabs, size, d, i - 1, j - 1, k - 1)];
    }
  }
}
