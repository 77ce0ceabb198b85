/** The object pools of the neighbour copy (terrainMesher.js 964-1032): LIFO
    stacks that hand out a recycled object when they have one and a new one
    otherwise. The pool of MeshedFaceData structs is FaceData.FaceDataPool. */
module Pools {
  import opened Common

  /** Pool of flat voxel buffers of cs * cs * cs cells (ChunkArrPool). */
  class ChunkArrPool {
    var arr: seq<array<int>>
    const cs: int

    /** Every pooled buffer has the chunk's size and none is pooled twice, so
        two buffers handed out one after the other never alias. */
    ghost predicate Valid()
      reads this
    {
      && 0 <= cs
      && (forall n :: 0 <= n < |arr| ==> arr[n].Length == cs * cs * cs)
      && (forall m, n :: 0 <= m < n < |arr| ==> arr[m] != arr[n])
    }

    constructor (chunkSize: int)
      requires 0 <= chunkSize
      ensures Valid() && cs == chunkSize && arr == []
    {
      cs := chunkSize;
      arr := [];
    }

    /** `get`: pop the most recently released buffer, or a new zeroed one
        when the pool is empty. A recycled buffer keeps its old contents. */
    method Get() returns (a: array<int>)
      requires Valid()
      modifies this
      ensures Valid() && a.Length == cs * cs * cs && a !in arr
      ensures old(arr) == [] ==> fresh(a) && arr == [] && forall n :: 0 <= n < a.Length ==> a[n] == 0
      ensures old(arr) != [] ==> a == old(arr)[|old(arr)| - 1] && arr == old(arr)[..|old(arr)| - 1]
    {
      if |arr| == 0 {
        var b := new int[cs * cs * cs](_ => 0);
        arr := arr + [b];
      }
      a := arr[|arr| - 1];
      arr := arr[..|arr| - 1];
    }

    /** `release`: push a buffer back, for the next `get` to return. */
    method Release(a: array<int>)
      requires Valid() && a.Length == cs * cs * cs && a !in arr
      modifies this
      ensures Valid() && arr == old(arr) + [a]
    {
      arr := arr + [a];
    }
  }

  /** Pool of 3x3x3 grids of optional buffers, one slot per neighbour
      (NeighborChunkArrPool); slot SlotIndex(a, b, c) holds neighbour (a, b, c). */
  class NeighborChunkArrPool {
    var arr: seq<array<Option<array<int>>>>

    ghost predicate Valid()
      reads this
    {
      && (forall n :: 0 <= n < |arr| ==> arr[n].Length == 27)
      && (forall m, n :: 0 <= m < n < |arr| ==> arr[m] != arr[n])
    }

    constructor ()
      ensures Valid() && arr == []
    {
      arr := [];
    }

    /** `get`: a grid with all 27 slots empty, either new or recycled and
        cleared slot by slot. */
    method Get() returns (grid: array<Option<array<int>>>)
      requires Valid()
      modifies this, arr
      ensures Valid() && grid.Length == 27 && grid !in arr
      ensures forall s :: 0 <= s < 27 ==> grid[s] == None
      ensures old(arr) == [] ==> fresh(grid) && arr == []
      ensures old(arr) != [] ==> grid == old(arr)[|old(arr)| - 1] && arr == old(arr)[..|old(arr)| - 1]
      ensures forall g :: g in arr ==> g[..] == old(g[..])
    {
      if |arr| == 0 {
        grid := new Option<array<int>>[27](_ => None);
      } else {
        grid := arr[|arr| - 1];
        arr := arr[..|arr| - 1];
        assert old(arr)[|old(arr)| - 1] == grid;
        var i := 0;
        while i < grid.Length
          modifies grid
          invariant 0 <= i <= grid.Length
          invariant arr == old(arr)[..|old(arr)| - 1]
          invariant forall s :: 0 <= s < i ==> grid[s] == None
        {
          grid[i] := None;
          i := i + 1;
        }
      }
    }

    /** `release`: push a grid back, for the next `get` to return. */
    method Release(grid: array<Option<array<int>>>)
      requires Valid() && grid.Length == 27 && grid !in arr
      modifies this
      ensures Valid() && arr == old(arr) + [grid]
    {
      arr := arr + [grid];
    }
  }
}
