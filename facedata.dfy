/** MeshedFaceData, the intermediate struct of merged block faces the greedy
    mesher produces for each terrain group (terrainMesher.js 269-281), and the
    pool it is taken from (terrainMesher.js 953-962). */
module FaceData {
  import opened Common

  /** One merged quad, as the mesh builder reads it back. */
  datatype Face = Face(matID: int, dir: int, i: int, j: int, k: int, w: int, h: int, ao: int)

  /** Structure of arrays: element n of every array belongs to quad n, for
      n < numFaces. Arrays of a recycled struct may be longer than numFaces;
      the extra elements are left over from earlier use. */
  datatype MeshedFaceData = MeshedFaceData(
    terrainID: int,
    numFaces: nat,
    matIDs: seq<int>,
    dirs: seq<int>,
    iVals: seq<int>,   // is
    jVals: seq<int>,   // js
    kVals: seq<int>,   // ks
    wids: seq<int>,
    hts: seq<int>,
    packedAO: seq<int>
  )
  {
    predicate Valid()
    {
      && numFaces <= |matIDs| && numFaces <= |dirs|
      && numFaces <= |iVals| && numFaces <= |jVals| && numFaces <= |kVals|
      && numFaces <= |wids| && numFaces <= |hts| && numFaces <= |packedAO|
    }

    /** Quad n, read from the same index of every array. */
    function FaceAt(n: nat): Face
      requires Valid() && n < numFaces
    {
      Face(matIDs[n], dirs[n], iVals[n], jVals[n], kVals[n], wids[n], hts[n], packedAO[n])
    }

    /** The quads recorded so far. */
    function Faces(): (r: seq<Face>)
      requires Valid()
      ensures |r| == numFaces
      ensures forall n :: 0 <= n < numFaces ==> r[n] == FaceAt(n)
    {
      seq(numFaces, n requires 0 <= n < numFaces => FaceAt(n))
    }

    /** `nf = numFaces; numFaces++; matIDs[nf] = ...; ...; dirs[nf] = ...`
        (terrainMesher.js 907-919): every array is written at index nf. */
    function Push(f: Face): (r: MeshedFaceData)
      requires Valid()
      ensures r.Valid()
      ensures r.terrainID == terrainID
      ensures r.Faces() == Faces() + [f]
    {
      var nf := numFaces;
      var r := MeshedFaceData(terrainID, nf + 1,
        SetAt(matIDs, nf, f.matID), SetAt(dirs, nf, f.dir),
        SetAt(iVals, nf, f.i), SetAt(jVals, nf, f.j), SetAt(kVals, nf, f.k),
        SetAt(wids, nf, f.w), SetAt(hts, nf, f.h), SetAt(packedAO, nf, f.ao));
      assert r.Faces() == Faces() + [f] by {
        forall n | 0 <= n < nf + 1
          ensures r.Faces()[n] == (Faces() + [f])[n]
        {
        }
      }
      r
    }
  }

  /** `new MeshedFaceData`. */
  function NewFaceData(): (r: MeshedFaceData)
    ensures r.Valid() && r.Faces() == []
  {
    MeshedFaceData(0, 0, [], [], [], [], [], [], [], [])
  }

  /** A faceDataSet: one struct per terrain group, keyed by its terrain ID. */
  predicate ValidSet(fds: map<int, MeshedFaceData>)
  {
    forall t :: t in fds ==> fds[t].Valid() && fds[t].terrainID == t
  }

  /** What a faceDataSet records: the quads of each terrain group. */
  function View(fds: map<int, MeshedFaceData>): (r: map<int, seq<Face>>)
    requires ValidSet(fds)
    ensures r.Keys == fds.Keys
    ensures forall t :: t in fds ==> r[t] == fds[t].Faces()
  {
    map t | t in fds :: fds[t].Faces()
  }

  /** Appending quad `f` to terrain group `t`, starting the group if needed. */
  function AddFace(v: map<int, seq<Face>>, t: int, f: Face): (r: map<int, seq<Face>>)
    ensures r.Keys == v.Keys + {t}
  {
    v[t := (if t in v then v[t] else []) + [f]]
  }

  /** Appending a quad to a group that exists. */
  lemma ViewPush(fds: map<int, MeshedFaceData>, t: int, f: Face)
    requires ValidSet(fds) && t in fds
    ensures ValidSet(fds[t := fds[t].Push(f)])
    ensures View(fds[t := fds[t].Push(f)]) == AddFace(View(fds), t, f)
  {
    var fds' := fds[t := fds[t].Push(f)];
    assert View(fds') == AddFace(View(fds), t, f) by {
      forall t' | t' in fds'
        ensures View(fds')[t'] == AddFace(View(fds), t, f)[t']
      {
      }
    }
  }

  /** Starting a group with an empty record, then appending a quad to it. */
  lemma ViewStart(fds: map<int, MeshedFaceData>, t: int, fd: MeshedFaceData, f: Face)
    requires ValidSet(fds) && t !in fds
    requires fd.Valid() && fd.terrainID == t && fd.numFaces == 0
    ensures ValidSet(fds[t := fd])
    ensures AddFace(View(fds[t := fd]), t, f) == AddFace(View(fds), t, f)
  {
    var fds' := fds[t := fd];
    assert View(fds') == View(fds)[t := []] by {
      forall t' | t' in fds'
        ensures View(fds')[t'] == View(fds)[t := []][t']
      {
      }
    }
  }

  /** Extremely naive object pool for MeshedFaceData: `get` hands out the
      structs in order, creating one when all are in use; `reset` makes all
      of them available again. */
  class FaceDataPool {
    var arr: seq<MeshedFaceData>
    var ix: nat

    ghost predicate Valid()
      reads this
    {
      ix <= |arr| && forall n :: 0 <= n < |arr| ==> arr[n].Valid()
    }

    constructor ()
      ensures Valid() && arr == [] && ix == 0
    {
      arr := [];
      ix := 0;
    }

    method Get() returns (fd: MeshedFaceData)
      requires Valid()
      modifies this
      ensures Valid()
      ensures ix == old(ix) + 1
      ensures fd.Valid()
      ensures fd == arr[old(ix)]
      ensures arr == if old(ix) < old(|arr|) then old(arr) else old(arr) + [NewFaceData()]
    {
      if ix >= |arr| {
        arr := arr + [NewFaceData()];
      }
      ix := ix + 1;
      fd := arr[ix - 1];
    }

    method Reset()
      requires Valid()
      modifies this
      ensures Valid() && arr == old(arr) && ix == 0
    {
      ix := 0;
    }
  }
}
