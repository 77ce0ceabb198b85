/** The read-only lookup tables the mesher is constructed with
    (terrainMesher.js 315-335): solidity and opacity per voxel ID, the face
    material of each voxel ID in each of the six face directions, and the
    terrain group of each material. */
module Registry {

  datatype Registry = Registry(
    solidity: seq<bool>,      // solidLookupArr
    opacity: seq<bool>,       // opacityLookup
    blockFaceMats: seq<int>,  // blockFaceToMatId, six entries per voxel ID
    matToTerrain: seq<int>    // matIdToTerrainId
  )
  {
    /** Tables cover the same voxel IDs; every face material has a terrain
        group; material IDs fit the Int16 mask cells they are stored in. */
    predicate Valid()
    {
      && |opacity| == |solidity|
      && |blockFaceMats| == 6 * |solidity|
      && |matToTerrain| <= 32768
      && forall n :: 0 <= n < |blockFaceMats| ==> 0 <= blockFaceMats[n] < |matToTerrain|
    }

    predicate IsVoxelId(id: int)
    {
      0 <= id < |solidity|
    }

    predicate IsMaterial(m: int)
    {
      0 <= m < |matToTerrain|
    }

    /** matIdGetter: `blockFaceToMatId[blockId * 6 + dir]`; material 0 means
        the face has no material. */
    function MatIdGetter(id: int, dir: int): (m: int)
      requires Valid() && IsVoxelId(id) && 0 <= dir < 6
      ensures IsMaterial(m)
    {
      blockFaceMats[id * 6 + dir]
    }

    /** terrainIDgetter (the real one: the debug switch that replaces it is
        always off). */
    function TerrainIdGetter(matID: int): int
      requires IsMaterial(matID)
    {
      matToTerrain[matID]
    }
  }
}
