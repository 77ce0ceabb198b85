# Greedy voxel meshing of noa's terrain mesher, in Dafny

This project models the core of `src/lib/terrainMesher.js` of the noa voxel
engine:

- **Neighbour copy.** A chunk's voxels are copied into pooled buffers, together
  with the voxels of its 26 neighbours that touch it
  (`copyNeighborChunksForMesh`).
- **Per-axis sweep.** The greedy mesher sweeps the chunk along x, y and z. For
  every plane it meshes, it builds a signed face mask with packed
  ambient-occlusion values (`constructMeshMask`, `packAOMask`).
- **Greedy merge.** The mask's face cells are merged into rectangles, and each
  rectangle is recorded in the MeshedFaceData struct of its terrain group
  (`constructGeometryFromMasks`).
- **Mesh arrays.** MeshBuilder turns each terrain group into its vertex
  positions, normals, triangle indices, vertex colours and atlas indices
  (`createMeshData` and its helpers).

The code is mixed imperative and functional, and the model keeps that shape:

- **Arrays and classes.** The mask caches, the copy buffers and the output
  arrays are Dafny arrays. The pools, the solidity lookup and the mesher state
  are classes with `modifies` frames.
- **Loops.** Every loop of the source is a `while` loop with its invariants.
- **Specification functions.** Each loop is proved against a function or
  predicate: the culling rules (`Mask.Decide`), the exact cover of a mask by
  rectangles (`Quads.ExactCover`) and its greedy order (`Quads.Greedy`,
  unique by `Quads.GreedyUnique`), the planes a sweep meshes
  (`Mesher.AxisPlanes`), and a group's mesh (`Builder.MeshBuilder.GroupMesh`).
- **Pure helpers.** `packAOMask`, `unpackAOMask`, `decideTriDir` and the
  lookup getters are functions.

Lemmas relate the pieces:

- the mask cells mean exactly the culling rules;
- skipping rows and y planes through `_wholeLayerVoxel` loses no face;
- the solidity lookup reads the voxel the neighbourhood holds;
- the rectangles of every meshed plane cover its faces exactly, with no overlap;
- both triangles of every quad wind the same way as its normal;
- every vertex colour takes the AO level of its own corner.

Each module follows one part of the source file:

| module | models |
|---|---|
| `Common` | coordinates, the row-major voxel index, neighbour slots, the sweep axes |
| `Registry` | the lookup tables the mesher is built with |
| `Views` | transposed and shifted ndarray views, written as index formulas |
| `FaceData` | MeshedFaceData and its pool |
| `Pools` | ChunkArrPool, NeighborChunkArrPool |
| `NeighborCopy` | copyNeighborChunksForMesh |
| `AO` | packAOMask, unpackAOMask |
| `Solidity` | prepareSolidityLookup, voxelIsSolid |
| `Mask` | constructMeshMask |
| `Quads`, `Grid` | what the rectangles of a mask mean; mask cell arithmetic |
| `Greedy` | constructGeometryFromMasks, maskCompare |
| `Mesher` | GreedyMesher and mesh |
| `Builder` | createMeshData and its helpers |
| `Geometry` | what the built arrays mean as geometry |
| `IndexWidth` | the Uint16Array the indices are stored in |

## Model

| member | source | states |
|---|---|---|
| Common.SetAt | src/lib/terrainMesher.js:907-919 | writing index n of a JavaScript array overwrites that element or, one past the end, appends it; every other element is kept |
| Common.IndexInRange | src/lib/terrainMesher.js:566-568 | a voxel inside a chunk of side cs has a flat index in 0 .. cs^3 - 1 |
| Common.SlotIndexRange | src/lib/terrainMesher.js:1019 | the 27 offsets of the `.lo(1, 1, 1)` neighbour grid land in slots 0..26, and only offset (0, 0, 0) lands in the centre slot |
| Common.Vec3.Set | src/lib/terrainMesher.js:1174-1175 | `norms[axis] = dir` changes that coordinate only |
| Common.SweepAxesArePermutation | src/lib/terrainMesher.js:605-607 | for every sweep axis d, d, u and v are three distinct axes |
| Common.Place | src/lib/terrainMesher.js:857-858 | `x[d] = i; x[u] = j; x[v] = k` puts i, j and k on axes d, u and v |
| Common.UntransposeIsPlace | src/lib/terrainMesher.js:610-618 | reading through `.transpose(d, u, v)` at (a, b, c) addresses the point whose d, u and v coordinates are a, b and c |
| Common.UntransposeInChunk | src/lib/terrainMesher.js:610-618 | a transposed coordinate lies in the chunk exactly when all three of its coordinates do |
| Registry.Registry.MatIdGetter | src/lib/terrainMesher.js:330 | the face material of a registered voxel in any direction is a material with a terrain group |
| Views.ReadAt | src/lib/terrainMesher.js:804-805 | `view.data[view.index(i, j, k)]` is the voxel `view.get(i, j, k)` reads |
| Views.RowIndex | src/lib/terrainMesher.js:795 | stepping `dA += jstrideA` j times reaches cell j of the row |
| Views.ColIndex | src/lib/terrainMesher.js:784-787 | stepping `indexA += kstrideA` k times reaches the start of row k |
| Views.ViewSteps | src/lib/terrainMesher.js:774-779 | the view's second and third strides move the flat index by the strides of the chunk axes u and v |
| Views.IndexStep | src/lib/terrainMesher.js:511-513 | one step along an axis moves the flat index by that axis's stride |
| FaceData.MeshedFaceData.Faces | src/lib/terrainMesher.js:269-281 | the recorded quads are numFaces entries, quad n read from index n of every array |
| FaceData.MeshedFaceData.Push | src/lib/terrainMesher.js:906-919 | writing every array at numFaces and incrementing it appends exactly that quad and keeps the terrain ID |
| FaceData.NewFaceData | src/lib/terrainMesher.js:269-281 | a new struct records no quads |
| FaceData.View | src/lib/terrainMesher.js:897-919 | a faceDataSet means, for each terrain ID it holds, the quads recorded in that group |
| FaceData.AddFace | src/lib/terrainMesher.js:895-919 | appending a quad to group t starts that group when needed and adds no other key |
| FaceData.ViewPush | src/lib/terrainMesher.js:906-919 | pushing into an existing group's struct appends the quad to that group's view |
| FaceData.ViewStart | src/lib/terrainMesher.js:897-902 | a group started from a pooled struct reset to numFaces = 0 means the same as a new empty group, even though the recycled arrays keep stale entries |
| FaceData.FaceDataPool.constructor | src/lib/terrainMesher.js:953-954 | the pool starts empty |
| FaceData.FaceDataPool.Get | src/lib/terrainMesher.js:955-959 | get hands out the struct at ix and creates a new one only when all are in use |
| FaceData.FaceDataPool.Reset | src/lib/terrainMesher.js:960 | reset makes every struct available again and keeps them all |
| Pools.ChunkArrPool.constructor | src/lib/terrainMesher.js:971-973 | a pool for buffers of the given chunk size, starting empty |
| Pools.ChunkArrPool.Get | src/lib/terrainMesher.js:974-979 | get pops the most recently released buffer, or gives a new zeroed cs^3 buffer; the buffer handed out is not left in the pool |
| Pools.ChunkArrPool.Release | src/lib/terrainMesher.js:980-982 | release pushes the buffer for the next get |
| Pools.NeighborChunkArrPool.constructor | src/lib/terrainMesher.js:1015 | the pool starts empty |
| Pools.NeighborChunkArrPool.Get | src/lib/terrainMesher.js:1016-1028 | get returns a 27-slot grid with every slot empty: a new one, or the last released one cleared slot by slot; the grids left in the pool keep their contents |
| Pools.NeighborChunkArrPool.Release | src/lib/terrainMesher.js:1029-1031 | release pushes the grid for the next get |
| NeighborCopy.EntryOf | src/lib/terrainMesher.js:340-421 | every one of the 26 neighbour offsets is listed in the corner, edge or face table |
| NeighborCopy.EntriesAreNeighbours | src/lib/terrainMesher.js:340-421 | every table entry is a neighbour offset, never the chunk itself |
| NeighborCopy.CornerTable | src/lib/terrainMesher.js:340-359 | each corner entry's voxel lies on the chunk's side of that neighbour on all three axes |
| NeighborCopy.EdgeTable | src/lib/terrainMesher.js:361-412 | each edge entry's two voxels start the touching line and take one step along it |
| NeighborCopy.FaceTable | src/lib/terrainMesher.js:414-460 | each face entry's column and row voxels start the touching plane and take one step along each of its axes |
| NeighborCopy.CornerTouching | src/lib/terrainMesher.js:483-486 | the voxel a corner entry names is the only one of that neighbour that touches the chunk |
| NeighborCopy.EdgeTouching | src/lib/terrainMesher.js:504-516 | the voxels of an edge neighbour that touch the chunk are exactly the line through the entry's first voxel |
| NeighborCopy.FaceTouching | src/lib/terrainMesher.js:533-556 | the voxels of a face neighbour that touch the chunk are exactly the plane through the entry's first voxel |
| NeighborCopy.LineIndex | src/lib/terrainMesher.js:515 | t steps of `idx += stride` address voxel t of the line |
| NeighborCopy.PlaneIndex | src/lib/terrainMesher.js:554-555 | the two nested stride walks address voxel (t1, t2) of the plane |
| NeighborCopy.CopyLine | src/lib/terrainMesher.js:515-517 | the cs cells of the line get the neighbour's values, and cells that already agreed with it still do |
| NeighborCopy.CopyCorner | src/lib/terrainMesher.js:479-489 | the copy agrees with the corner neighbour on every voxel touching the chunk |
| NeighborCopy.EdgeLine | src/lib/terrainMesher.js:511-516 | the stride from the table's two voxels keeps the walk inside the buffer and reaches every touching voxel |
| NeighborCopy.CopyEdge | src/lib/terrainMesher.js:499-519 | the copy agrees with the edge neighbour on every voxel touching the chunk |
| NeighborCopy.CopyPlane | src/lib/terrainMesher.js:554-558 | all cs x cs cells of the plane get the neighbour's values |
| NeighborCopy.FacePlane | src/lib/terrainMesher.js:547-556 | the column and row strides keep the walk inside the buffer and reach every touching voxel |
| NeighborCopy.CopyFace | src/lib/terrainMesher.js:528-560 | the copy agrees with the face neighbour on every voxel touching the chunk |
| NeighborCopy.OwnsStep | src/lib/terrainMesher.js:480-481 | a buffer popped from the pool and set into a slot belongs to that slot only |
| NeighborCopy.CopyTouching | src/lib/terrainMesher.js:479-560 | whatever the table kind, the copy agrees with the neighbour on every touching voxel |
| NeighborCopy.CopyPresent | src/lib/terrainMesher.js:479-489 | a present neighbour's slot is filled with its own pooled buffer holding its touching voxels, and no other slot changes |
| NeighborCopy.CopyNeighbour | src/lib/terrainMesher.js:474-490 | one pass of a table loop keeps every copy owned and faithful, and fills the slot of the entry when its neighbour is present |
| NeighborCopy.CoversStep | src/lib/terrainMesher.js:474-490 | the loop's progress over a table advances by one entry |
| NeighborCopy.CopyNeighbours | src/lib/terrainMesher.js:474-561 | after a table loop every present neighbour it lists has its copy in its slot; earlier slots stay filled; the centre slot is untouched |
| NeighborCopy.CopyAll | src/lib/terrainMesher.js:566-568 | the centre buffer holds exactly the chunk's voxels |
| NeighborCopy.PresentMembers | src/lib/terrainMesher.js:570-576 | a buffer is collected exactly when some slot holds it |
| NeighborCopy.PresentDistinct | src/lib/terrainMesher.js:570-576 | no buffer is collected twice, so the list can serve as a transfer list |
| NeighborCopy.CollectBuffers | src/lib/terrainMesher.js:570-576 | the transferable buffers are the filled slots' buffers in slot order |
| NeighborCopy.CoversKept | src/lib/terrainMesher.js:494-561 | the corner and edge loops' results survive the later loops |
| NeighborCopy.CopyListedNeighbours | src/lib/terrainMesher.js:474-561 | after the three table loops a slot is filled exactly when its neighbour is present, with a faithful copy of the touching voxels |
| NeighborCopy.CopyCentre | src/lib/terrainMesher.js:564-568 | the centre slot gets a buffer of its own holding the whole chunk |
| NeighborCopy.CopyNeighborChunksForMesh | src/lib/terrainMesher.js:469-584 | the copied neighbours hold the whole chunk at the centre and, for exactly the present neighbours, their touching voxels; the transfer list is those distinct buffers in slot order; the grid goes back to its pool |
| AO.UnpackAOMask | src/lib/terrainMesher.js:1460-1466 | four levels in 0..3, and re-packing them gives back any byte |
| AO.UnpackPack | src/lib/terrainMesher.js:1396 | unpacking a packed value gives back its four levels |
| AO.PackUnpack | src/lib/terrainMesher.js:1460-1466 | packing an unpacked byte gives back the byte |
| AO.CornerLevel | src/lib/terrainMesher.js:1376-1451 | a corner's level is 2 or 3 when the face looks into a solid voxel, 3 when both side neighbours are solid, never 0 without reverse AO, and 0 exactly when nothing around the corner in the facing layer is solid and one of the three cells behind it is not |
| AO.AOLevels | src/lib/terrainMesher.js:1382-1448 | corners A, B, C, D are the levels of directions (-1,-1), (-1,1), (1,1), (1,-1) |
| AO.PackAOMask | src/lib/terrainMesher.js:1376-1451 | the result is a byte, and unpacking it gives the four corner levels |
| AO.FacingSolidCorners | src/lib/terrainMesher.js:1388-1397 | facing a solid voxel, every corner is 2 or 3 |
| AO.SkipReverseNoZero | src/lib/terrainMesher.js:1399-1407 | with reverse AO skipped, no corner is 0 |
| AO.OpenSurroundings | src/lib/terrainMesher.js:1409-1450 | with nothing solid around, all corners are 0, or all stay flat (0x55) when reverse AO is skipped |
| Solidity.SlotInjective | src/lib/terrainMesher.js:706 | `i * 9 + j * 3 + k` gives distinct slots to distinct offsets |
| Solidity.SlotsExtend | src/lib/terrainMesher.js:706-712 | setting up one more slot extends the prepared prefix of slots |
| Solidity.SlotAt | src/lib/terrainMesher.js:702-715 | a prepared slot holds the neighbour at its offset, or the centre when that neighbour is missing, with type 1 for missing, 2 for the centre, 0 otherwise |
| Solidity.FloorDiv | src/lib/terrainMesher.js:694-699 | for x in [-1, size], coordToLoc - 1 and edgeCoordLookup are x's floor quotient and remainder by size |
| Solidity.IsSolidReadsSlots | src/lib/terrainMesher.js:727-742 | a prepared lookup reads what the slot description says |
| Solidity.CoordRow | src/lib/terrainMesher.js:694-699 | the three coordinate tables hold the location, neighbour coordinate and clamped coordinate of every x in [-1, size] |
| Solidity.IsSolidUnfold | src/lib/terrainMesher.js:727-742 | voxelIsSolid with the table rows replaced by their values |
| Solidity.SlotReadIsNeighbourhoodVoxel | src/lib/terrainMesher.js:727-742 | the slot read is the voxel of the neighbourhood at that coordinate |
| Solidity.SlotReadCases | src/lib/terrainMesher.js:733-741 | missing, centre and present slots all read the neighbourhood's voxel |
| Solidity.IsSolidReadsNeighbourhood | src/lib/terrainMesher.js:689-742 | every lookup answers the solidity of the neighbourhood's voxel at that coordinate: the neighbour's voxel with -1 mapped to size - 1 and size to 0, or the centre's at the clamped coordinate when that neighbour is missing |
| Solidity.UntransposeZero | src/lib/terrainMesher.js:710 | only the centre offset maps to the centre chunk, so the identity test types exactly the centre slot 2 |
| Solidity.LookupInRange | src/lib/terrainMesher.js:728-741 | lookups land in one of the 27 slots and inside that chunk; type 2 happens only for coordinates inside the chunk |
| Solidity.SolidityLookup.Snapshot | src/lib/terrainMesher.js:718-724 | the lookup state as voxelIsSolid reads it |
| Solidity.SolidityLookup.constructor | src/lib/terrainMesher.js:718-724 | starts with no size prepared (-1) and 27 empty slots |
| Solidity.SolidityLookup.PrepareSolidityLookup | src/lib/terrainMesher.js:689-716 | afterwards the lookup is prepared for this neighbourhood, size and axis; the coordinate tables are rebuilt only when the size changed |
| Solidity.SolidityLookup.FillCoordTables | src/lib/terrainMesher.js:694-699 | the tables hold rows for every coordinate -1 .. size |
| Solidity.SolidityLookup.FillSlots | src/lib/terrainMesher.js:702-715 | all 27 slots are set up |
| Solidity.SolidityLookup.FillSlotRow | src/lib/terrainMesher.js:705-713 | the innermost loop sets up three more slots |
| Solidity.SolidityLookup.FillSlot | src/lib/terrainMesher.js:706-712 | one slot gets its view and type |
| Mask.CullingRules | src/lib/terrainMesher.js:804-835 | both directions: a face is drawn exactly when the IDs differ, not both are opaque, the materials differ and one side is opaque or lacks a material; A's face when A is opaque or B lacks a material, otherwise B's |
| Mask.MirrorRule | src/lib/terrainMesher.js:821-835 | with materials on both sides, swapping the voxels swaps the side drawn |
| Mask.LayerPair.IdA | src/lib/terrainMesher.js:804 | the voxel read in layer A is a registered voxel ID |
| Mask.LayerPair.IdB | src/lib/terrainMesher.js:805 | the voxel read in layer B is a registered voxel ID |
| Mask.SkipChangesNothing | src/lib/terrainMesher.js:789-793 | when the whole-layer voxel fills the row on both sides, skipping it gives the mask the cell-by-cell rules would give |
| Mask.MakeTargets | src/lib/terrainMesher.js:783-837 | target mask, AO and face-flag tables exist for every cell |
| Mask.TotalSnoc | src/lib/terrainMesher.js:827 | the face count grows by each cell's flag |
| Mask.TotalZero | src/lib/terrainMesher.js:790-792 | a skipped row adds no faces |
| Mask.RowsLength | src/lib/terrainMesher.js:771 | k rows laid end to end fill the first k * len cells |
| Mask.RowsAt | src/lib/terrainMesher.js:769-771 | entry (j, k) lands at mask index k * len + j |
| Mask.SpliceStep | src/lib/terrainMesher.js:795-835 | writing cell j of the row extends the row's written prefix |
| Mask.RowsTotalStep | src/lib/terrainMesher.js:783-837 | the face count after row k adds that row's faces |
| Mask.CountAppend | src/lib/terrainMesher.js:838 | face cells of consecutive rows add up |
| Mask.RowCountBound | src/lib/terrainMesher.js:824-831 | a row has no more non-zero cells than counted faces |
| Mask.TargetFlags | src/lib/terrainMesher.js:824-831 | every face flag is 0 or 1, and every non-zero cell is flagged |
| Mask.RowsCountBound | src/lib/terrainMesher.js:838 | the rows' non-zero cells are at most facesFound |
| Mask.RowSetup | src/lib/terrainMesher.js:784-795 | a row that is not skipped reads its cells at the flat indices the loop walks |
| Mask.CellSetup | src/lib/terrainMesher.js:795-805 | cell j reads A at dA0 + j * jstrideA and B at dB0 + j * jstrideB |
| Mask.MaskCell | src/lib/terrainMesher.js:797-835 | the cell gets its face's signed material and, with AO, its packed AO; a cell without a face is left as it was |
| Mask.CellValues | src/lib/terrainMesher.js:804-835 | the decision for one cell: whether a face is drawn, its signed material and its AO |
| Mask.MaskCells | src/lib/terrainMesher.js:795-836 | the row's cells hold their targets; the rest of the mask is unchanged |
| Mask.MaskCellAt | src/lib/terrainMesher.js:795-835 | one turn of the j loop extends the written prefix by one cell |
| Mask.CellsStart | src/lib/terrainMesher.js:795 | no cell of the row is written yet |
| Mask.CellsStep | src/lib/terrainMesher.js:795-835 | a cell still holds its old value until it is written |
| Mask.CellsEnd | src/lib/terrainMesher.js:836 | after the j loop the row is spliced into the mask |
| Mask.AllRowsReady | src/lib/terrainMesher.js:783-793 | every row of the targets is ready for the loops |
| Mask.RowReadyAt | src/lib/terrainMesher.js:783-793 | row k is either skipped and empty, or active with targets at its flat indices |
| Mask.SkippedReady | src/lib/terrainMesher.js:790-793 | a skipped row is all zero, with no face and its old AO values |
| Mask.ActiveReady | src/lib/terrainMesher.js:784-787 | an active row starts k strides along the view's third axis |
| Mask.SpliceSame | src/lib/terrainMesher.js:790-792 | skipping a row leaves its AO cells as they were |
| Mask.SpliceZero | src/lib/terrainMesher.js:800-801 | skipping a row leaves its mask cells zero, as they came in |
| Mask.Extend | src/lib/terrainMesher.js:783-837 | the mask after the rows before k plus row k |
| Mask.MaskRow | src/lib/terrainMesher.js:783-836 | one pass of the k loop writes row k and adds its faces to facesFound |
| Mask.ConstructMeshMask | src/lib/terrainMesher.js:762-839 | every cell of the plane holds the culling rules' signed face, with AO the face's packed AO; the returned count is the number of face cells; cells past the plane are untouched |
| Mask.MaskRows | src/lib/terrainMesher.js:783-837 | the k loop lays the rows end to end and counts all faces |
| Mask.MaskRowStep | src/lib/terrainMesher.js:783-837 | one turn of the k loop extends the written rows by row k |
| Mask.MaskMeaning | src/lib/terrainMesher.js:762-839 | the written tables read back as the culling rules cell by cell |
| Mask.CountMeaning | src/lib/terrainMesher.js:827-838 | facesFound is the number of face cells |
| Mask.RowCountMeaning | src/lib/terrainMesher.js:827-831 | the row's flags count its face cells |
| Grid.RowStart | src/lib/terrainMesher.js:883 | a row starts at a non-negative index |
| Grid.RowStartMul | src/lib/terrainMesher.js:883 | row k starts at k * len1 |
| Grid.RowStartMono | src/lib/terrainMesher.js:862-865 | later rows start at least a row further on |
| Grid.CellInRange | src/lib/terrainMesher.js:883 | every cell of a len1 x len2 mask has an index below len1 * len2 |
| Grid.CellInjective | src/lib/terrainMesher.js:769-771 | distinct cells have distinct indices |
| Grid.CellShift | src/lib/terrainMesher.js:883 | `n + m + h * len1` is the cell m columns and h rows from n |
| Grid.CellOfBelow | src/lib/terrainMesher.js:855-865 | every index below len1 * len2 is a cell of the mask |
| Grid.CellOf | src/lib/terrainMesher.js:855-865 | every non-negative index is a cell |
| Grid.CountClear | src/lib/terrainMesher.js:925 | zeroing a face cell drops the face count by one |
| Grid.CountZero | src/lib/terrainMesher.js:929-931 | no face cell left means every cell is zero |
| Grid.RowCells | src/lib/terrainMesher.js:924-925 | the flat run of a quad's row is exactly its cells in that row |
| Grid.RunBelow | src/lib/terrainMesher.js:923-927 | each row of a quad ends before the next row of the quad |
| Grid.RunHoldsFaces | src/lib/terrainMesher.js:923-927 | before a quad row is zeroed, its cells still hold faces |
| Grid.RunZeroed | src/lib/terrainMesher.js:923-927 | zeroing one more row extends the zeroed part of the quad |
| Grid.RowsBelow | src/lib/terrainMesher.js:881 | a quad's rows end within the mask |
| Grid.AllZero | src/lib/terrainMesher.js:929-931 | a face count of zero means the whole mask is zero |
| Quads.Compare | src/lib/terrainMesher.js:936-945 | a match means the cell is in the mask and holds the value, and with AO also the AO value |
| Quads.RasterAppend | src/lib/terrainMesher.js:851-934 | painting one more quad changes exactly its cells |
| Quads.RasterZero | src/lib/terrainMesher.js:851-934 | a cell no quad paints is in no quad |
| Quads.ScanStart | src/lib/terrainMesher.js:855-862 | the scan starts at cell (0, 0) with no quads |
| Quads.ScanSkip | src/lib/terrainMesher.js:867-871 | an empty cell is passed over |
| Quads.ScanNextRow | src/lib/terrainMesher.js:862-865 | the end of a row is the start of the next |
| Quads.FreshQuad | src/lib/terrainMesher.js:873-886 | a quad grown over non-zero cells covers no earlier quad and shows the original mask |
| Quads.DisjointAppend | src/lib/terrainMesher.js:873-927 | the new quad overlaps no earlier one |
| Quads.MatchAppend | src/lib/terrainMesher.js:873-886 | the new quad's cells hold its value and AO |
| Quads.PaintAppend | src/lib/terrainMesher.js:923-927 | zeroing the quad keeps the mask equal to the original with all quads' cells zeroed |
| Quads.ClearAppend | src/lib/terrainMesher.js:865 | after the quad, every cell before j + w is zero |
| Quads.ScanFace | src/lib/terrainMesher.js:873-927 | recording and zeroing the quad moves the scan past it |
| Quads.ScanCleared | src/lib/terrainMesher.js:929-931 | with no face cell left the scan may stop early |
| Quads.ScanFinished | src/lib/terrainMesher.js:862-933 | at the end, or at the early exit, the mask is zero and the quads cover it exactly |
| Quads.ScanDone | src/lib/terrainMesher.js:851-934 | a zero mask means an exact cover |
| Quads.RectMatches | src/lib/terrainMesher.js:876-886 | every cell of the grown quad matches its first cell |
| Quads.RasterNone | src/lib/terrainMesher.js:923-927 | a cell no quad covers is not zeroed by any of them |
| Quads.CoverJoins | src/lib/terrainMesher.js:873-927 | no earlier quad of an exact cover covers a cell of quad p, so after them that cell still holds quad p's value and AO |
| Quads.CompareJoins | src/lib/terrainMesher.js:936-945 | maskCompare on the mask the scan holds is the comparison against the original mask with the recorded quads zeroed |
| Quads.GreedyNextOf | src/lib/terrainMesher.js:862-886 | a quad grown at the scan position, as wide and then as tall as the mask lets it, is the greedy quad after those recorded |
| Quads.ClearedErased | src/lib/terrainMesher.js:862-871 | the cells the scan has passed are zero once the recorded quads are erased from the original mask |
| Quads.BreaksStop | src/lib/terrainMesher.js:880-886 | a row that breaks the quad in the mask the scan holds breaks it in the original mask with the recorded quads erased |
| Quads.GreedyExtend | src/lib/terrainMesher.js:890-919 | appending the greedy quad keeps every quad greedy |
| Quads.GreedyAppend | src/lib/terrainMesher.js:873-927 | recording the quad found at the scan position keeps the quads greedy and in scan order |
| Quads.OriginUnpainted | src/lib/terrainMesher.js:866-871 | the origin of quad p of an exact cover is a face cell no earlier quad covers |
| Quads.GrownAt | src/lib/terrainMesher.js:873-886 | quad p of a greedy exact cover is the greedy quad after the quads before it |
| Quads.SameQuad | src/lib/terrainMesher.js:862-886 | after the same quads, the first face cell left, the widest run and the tallest height fix the next quad: two such quads are equal |
| Quads.GreedyStep | src/lib/terrainMesher.js:862-931 | two greedy exact covers that agree on their first p quads agree on quad p |
| Quads.CoverEnds | src/lib/terrainMesher.js:929-931 | an exact cover that is a prefix of another is the whole of it: the longer one's next quad would cover a face the shorter leaves bare |
| Quads.GreedyFrom | src/lib/terrainMesher.js:851-934 | two greedy exact covers that agree on their first p quads are equal |
| Quads.GreedySame | src/lib/terrainMesher.js:851-934 | the greedy quads depend only on the mask's cells and, with AO, on the AO of its face cells |
| Quads.NextSame | src/lib/terrainMesher.js:862-886 | the same for the one quad grown after given earlier quads |
| Quads.JoinsSame | src/lib/terrainMesher.js:876-886 | whether a cell joins a quad of a non-zero value depends only on those cells |
| Quads.ExactFrom | src/lib/terrainMesher.js:851-934 | the clauses of an exact cover make one |
| Quads.GreedyUnique | src/lib/terrainMesher.js:851-934 | a mask has exactly one greedy exact cover: the merge's output is determined by the mask and AO mask |
| Quads.AddRectsAppend | src/lib/terrainMesher.js:892-919 | recording a quad appends its face to its terrain's group |
| Greedy.GrowWidth | src/lib/terrainMesher.js:876-878 | the width is the run of matching cells along j: all cells within match, the next one does not |
| Greedy.GrowHeight | src/lib/terrainMesher.js:880-886 | the height is the number of rows matching across the whole width: they all match, and the next row breaks somewhere |
| Greedy.ZeroRun | src/lib/terrainMesher.js:924-926 | zeroes exactly w cells and drops the face count by w |
| Greedy.ZeroRect | src/lib/terrainMesher.js:923-927 | zeroes exactly the quad's cells and drops the face count by w * h |
| Greedy.RecordFace | src/lib/terrainMesher.js:895-919 | the faceDataSet gains the quad at the end of its terrain group |
| Greedy.GrowQuad | src/lib/terrainMesher.js:873-886 | the quad starts at the given cell, lies in the mask and every cell of it has the first cell's value, and AO with AO on; the cell after its last column does not match, and the row above breaks somewhere across its width |
| Greedy.RecordQuad | src/lib/terrainMesher.js:890-919 | the quad's face, direction by the value's sign, is recorded in its terrain group |
| Greedy.MergeQuad | src/lib/terrainMesher.js:873-927 | grow, record and zero one quad: the scan moves on by the quad's width, and the quad is the greedy one after those already recorded |
| Greedy.ConstructGeometryFromMasks | src/lib/terrainMesher.js:851-934 | the recorded quads cover the mask exactly, with no overlap, each over cells of one value and AO; their origins come in scan order; each quad starts at the first face cell its predecessors left, cannot be widened, and cannot be heightened across its width (so by Quads.GreedyUnique the quads are the only greedy cover); each is appended to its terrain group; the mask ends all zero |
| Greedy.MergeRows | src/lib/terrainMesher.js:862-933 | the k loop runs to the last row, or stops once no face cell is left; every quad it records is the greedy one, in scan order |
| Greedy.MergeRow | src/lib/terrainMesher.js:865-932 | one row of the scan, keeping the quads greedy and in scan order; the exit condition holds only when the whole mask is zero |
| Mesher.InteriorPlaneMembers | src/lib/terrainMesher.js:653-670 | the interior planes are 1 .. n, minus the planes the y-skip drops |
| Mesher.MeshedPlanes | src/lib/terrainMesher.js:633-670 | both directions: plane 0 is meshed exactly when the previous neighbour exists, interior plane i exactly when the chunk is neither empty nor full and the y-skip does not apply, and plane size never |
| Mesher.AxisPlanesSplit | src/lib/terrainMesher.js:636-647 | the edges-only `continue` ends the axis after plane 0 |
| Mesher.InteriorPlanesIncreasing | src/lib/terrainMesher.js:653 | interior planes come in increasing order, within 1 .. n |
| Mesher.AxisPlanesIncreasing | src/lib/terrainMesher.js:633-670 | no plane is meshed twice along an axis |
| Mesher.PairValid | src/lib/terrainMesher.js:634-666 | the layer pairs handed to constructMeshMask lie inside their chunks |
| Mesher.AxisPlanesOk | src/lib/terrainMesher.js:633-670 | every meshed plane is one constructMeshMask accepts |
| Mesher.YSkipSound | src/lib/terrainMesher.js:655-661 | a y plane skipped between two layers of one same whole-layer voxel has no face |
| Mesher.RowSkipSound | src/lib/terrainMesher.js:663-666 | along x and z, the whole-layer row skip loses no face |
| Mesher.TablesAgree | src/lib/terrainMesher.js:627 | a prepared lookup answers the neighbourhood's solidity on [-1, size]^3 |
| Mesher.PackAOLocal | src/lib/terrainMesher.js:1376-1451 | packAOMask reads only the 3x3 cells around the face in its two layers |
| Mesher.CornerLocal | src/lib/terrainMesher.js:1382-1448 | a corner level depends only on cells in [-1, size]^3 |
| Mesher.SweptStep | src/lib/terrainMesher.js:636-669 | meshing one more plane extends the log and the faceDataSet |
| Mesher.GreedyMesher.constructor | src/lib/terrainMesher.js:315-335 | the mesher's options and a fresh, unprepared lookup |
| Mesher.GreedyMesher.Mesh | src/lib/terrainMesher.js:593-677 | the faceDataSet holds the quads of every plane the sweep meshes, axis after axis; each plane is covered exactly by its quads, which are the greedy quads of the plane's faces in scan order (so by Mesher.LogUnique and Mesher.AddPlanesSame the log and the faceDataSet view are fixed by the chunk); without AO every recorded quad has packed AO 0; the mask cache ends zero, and without AO the AO mask cache stays zero |
| Mesher.GreedyMesher.AxisPass | src/lib/terrainMesher.js:605-673 | one axis: grow the masks, prepare the lookup, mesh its planes |
| Mesher.GreedyMesher.SweepAxis | src/lib/terrainMesher.js:627-670 | the planes of one axis are meshed in order |
| Mesher.GreedyMesher.PrepareLookup | src/lib/terrainMesher.js:610-627 | the lookup answers the neighbourhood's solidity |
| Mesher.GreedyMesher.GrowMasks | src/lib/terrainMesher.js:620-624 | the caches are replaced by fresh zeroed arrays exactly when too short |
| Mesher.GreedyMesher.MeshInterior | src/lib/terrainMesher.js:653-670 | every interior plane the y-skip keeps is meshed, in order |
| Mesher.GreedyMesher.InteriorPlane | src/lib/terrainMesher.js:655-669 | plane i + 1 is meshed unless the y-skip drops it |
| Mesher.GreedyMesher.MeshPlane | src/lib/terrainMesher.js:636-643 | the mask of the plane, then its quads if it has faces |
| Mesher.InteriorStep | src/lib/terrainMesher.js:655-669 | one turn of the i loop adds plane i + 1 or nothing |
| Mesher.PlaneMask | src/lib/terrainMesher.js:639 | the mask cache holds the plane's faces and AO, and the face count; without AO the AO mask cache stays zero |
| Mesher.AOKept | src/lib/terrainMesher.js:826-831 | an all-zero AO mask whose cells constructMeshMask leaves as they were stays all zero |
| Mesher.TailZero | src/lib/terrainMesher.js:621-624 | cells past the plane stay zero |
| Mesher.PlaneQuads | src/lib/terrainMesher.js:641-643 | with faces, the quads cover the plane and are the greedy quads of the mask and AO mask it was given, in scan order, which are a mask of the plane's faces; without faces, none; the mask ends zero either way |
| Mesher.MaskMaterials | src/lib/terrainMesher.js:892-893 | every mask value is a signed material with a terrain group |
| Mesher.NoFaces | src/lib/terrainMesher.js:641 | a count of zero means an empty mask, covered by no quads, which are trivially its greedy quads |
| Mesher.MaskFaces | src/lib/terrainMesher.js:636-643 | the mask and AO mask constructMeshMask leaves hold each cell's face and, with AO, each face cell's packed AO from the neighbourhood; without AO the AO mask is 0 |
| Mesher.MaskFace | src/lib/terrainMesher.js:636-643 | the same for one cell |
| Mesher.PlaneExact | src/lib/terrainMesher.js:851-934 | an exact cover of the plane's faces is an exact cover of any mask and AO mask of those faces |
| Mesher.QuadCells | src/lib/terrainMesher.js:851-934 | every cell of a quad holds, in any mask of the plane's faces, the quad's value and, with AO, its AO |
| Mesher.QuadCell | src/lib/terrainMesher.js:851-934 | the same for one cell of one quad, and without AO the AO mask's 0 is the quad's AO |
| Mesher.PlaneRaster | src/lib/terrainMesher.js:851-934 | painting the quads gives any mask of the plane's faces |
| Mesher.FacesAgree | src/lib/terrainMesher.js:636-643 | two masks of the same plane's faces agree on every cell and, with AO, on every face cell's AO |
| Mesher.CoveredUnique | src/lib/terrainMesher.js:636-643 | two logged runs of the same plane hold the same quads in the same order |
| Mesher.LogUnique | src/lib/terrainMesher.js:593-677 | two logs of the same planes, each plane covered, hold the same quads plane by plane, so what mesh appends is fixed by the chunk |
| Mesher.AddPlanesSame | src/lib/terrainMesher.js:895-902 | logs of the same planes and quads add the same faces to a faceDataSet view |
| Mesher.PlanesLength | src/lib/terrainMesher.js:593-677 | one plane is logged per run |
| Mesher.SweptFacts | src/lib/terrainMesher.js:593-677 | a finished sweep's log covers the swept planes and its faceDataSet view is the log's quads |
| Mesher.CoverMeaning | src/lib/terrainMesher.js:636-669 | the exact cover of the mask is an exact cover of the plane's faces; without AO, over a zero AO mask, every quad's packed AO is 0 |
| Mesher.CoverCellsMeaning | src/lib/terrainMesher.js:873-919 | every cell of every quad has its quad's face and AO |
| Mesher.CoverCellFacts | src/lib/terrainMesher.js:876-886 | a quad's cell carries the quad's non-zero value and AO |
| Mesher.CoverRasterMeaning | src/lib/terrainMesher.js:851-934 | the cells the quads paint are exactly the face cells, each with its face |
| Mesher.CellMeaning | src/lib/terrainMesher.js:826-830 | with AO, a quad's AO is the one its cell's face gets from the neighbourhood |
| Builder.FlattenLength | src/lib/terrainMesher.js:1147-1153 | blocks of K values fill K values each |
| Builder.FlattenAt | src/lib/terrainMesher.js:1221 | value t of block g is at K * g + t |
| Builder.FlattenBlock | src/lib/terrainMesher.js:1221 | block g fills K * g .. K * g + K - 1 |
| Builder.FlattenSnoc | src/lib/terrainMesher.js:1156 | one more face extends the buffer by its block |
| Builder.Quad | src/lib/terrainMesher.js:1223-1234 | four vertices per quad |
| Builder.QuadCorners | src/lib/terrainMesher.js:1162-1171 | four vertices per quad |
| Builder.Coords | src/lib/terrainMesher.js:1229-1234 | twelve position values per quad |
| Builder.PositionBlock | src/lib/terrainMesher.js:1171 | twelve position values per quad |
| Builder.NormalBlock | src/lib/terrainMesher.js:1258-1263 | twelve normal values per quad |
| Builder.DecideTriDir | src/lib/terrainMesher.js:1293-1301 | all four cases: equal A, C and different B, D split on A-C; different A, C and equal B, D on B-D; all different by the larger sum; both equal on A-C exactly when B is 2 |
| Builder.ListChoice | src/lib/terrainMesher.js:1268-1270 | one of the four index lists |
| Builder.IndexBlock | src/lib/terrainMesher.js:1271-1274 | six indices per quad |
| Builder.Shade | src/lib/terrainMesher.js:1325-1328 | four colour values per vertex |
| Builder.AOBlock | src/lib/terrainMesher.js:1313-1319 | sixteen colour values per quad |
| Builder.Plain | src/lib/terrainMesher.js:1306-1309 | four colour values per vertex |
| Builder.PlainBlock | src/lib/terrainMesher.js:1303-1311 | sixteen colour values per quad |
| Builder.MeshBuilder.ColorBlock | src/lib/terrainMesher.js:1189-1194 | sixteen colour values per quad |
| Builder.MeshBuilder.AtlasBlock | src/lib/terrainMesher.js:1184-1187 | four atlas values per quad |
| Builder.MeshBuilder.FaceIndexBlock | src/lib/terrainMesher.js:1178-1182 | six indices per quad |
| Builder.MeshBuilder.IndexBlocks | src/lib/terrainMesher.js:1156-1195 | one six-index block per quad |
| Builder.MeshBuilder.IndexBlocksAt | src/lib/terrainMesher.js:1178-1182 | block g is quad g's indices |
| Builder.MeshBuilder.ColorBlocks | src/lib/terrainMesher.js:1156-1195 | one sixteen-value block per quad |
| Builder.MeshBuilder.ColorBlocksAt | src/lib/terrainMesher.js:1189-1194 | block g is quad g's colours |
| Builder.MeshBuilder.AtlasBlocks | src/lib/terrainMesher.js:1156-1195 | one four-value block per quad |
| Builder.MeshBuilder.AtlasBlocksAt | src/lib/terrainMesher.js:1184-1187 | block g is quad g's atlas indices |
| Builder.MeshBuilder.CreateMeshData | src/lib/terrainMesher.js:1122-1213 | one MeshData per terrain group, each group exactly once, each the group's mesh |
| Builder.MeshBuilder.BuiltStep | src/lib/terrainMesher.js:1134-1206 | taking one more key adds that group's mesh |
| Builder.MeshBuilder.BuildGroup | src/lib/terrainMesher.js:1135-1206 | the arrays built for a group are its mesh: block g of each array from quad g, atlas indices only when the group uses the atlas |
| Builder.MeshBuilder.FillGroup | src/lib/terrainMesher.js:1156-1195 | after the face loop every array holds all quads' blocks |
| Builder.MeshBuilder.Assembled | src/lib/terrainMesher.js:1197-1206 | filled arrays of exactly numFaces blocks are the group's mesh |
| Builder.MeshBuilder.FillFace | src/lib/terrainMesher.js:1157-1194 | quad f's data goes after quads 0 .. f - 1 in every array |
| Builder.MeshBuilder.FillIndices | src/lib/terrainMesher.js:1178-1182 | quad f's indices after the earlier ones |
| Builder.MeshBuilder.FillAtlas | src/lib/terrainMesher.js:1184-1187 | quad f's atlas indices after the earlier ones, when the group uses the atlas |
| Builder.MeshBuilder.FillColors | src/lib/terrainMesher.js:1189-1194 | quad f's colours after the earlier ones |
| Builder.MeshBuilder.PushMeshColors | src/lib/terrainMesher.js:1313-1319 | the shaded colours of corners A, D, C, B |
| Builder.PositionBlocks | src/lib/terrainMesher.js:1156-1195 | one twelve-value block per quad |
| Builder.PositionBlocksAt | src/lib/terrainMesher.js:1171 | block g is quad g's vertices |
| Builder.NormalBlocks | src/lib/terrainMesher.js:1156-1195 | one twelve-value block per quad |
| Builder.NormalBlocksAt | src/lib/terrainMesher.js:1174-1176 | block g is quad g's normal |
| Builder.FillPositions | src/lib/terrainMesher.js:1171 | quad f's positions after the earlier ones |
| Builder.FillNormals | src/lib/terrainMesher.js:1174-1176 | quad f's normals after the earlier ones |
| Builder.TerrainIDs | src/lib/terrainMesher.js:1205 | the terrain IDs of the MeshData, in order |
| Builder.PickKey | src/lib/terrainMesher.js:1134 | the next key of the for-in loop is one not yet taken |
| Builder.FillStep | src/lib/terrainMesher.js:1156 | writing block f after f blocks fills f + 1 |
| Builder.Whole | src/lib/terrainMesher.js:1146-1153 | arrays allocated for nf quads and filled with all nf blocks are their concatenation |
| Builder.Extend | src/lib/terrainMesher.js:1221 | a block written after an unchanged prefix extends it |
| Builder.AddPositionValues | src/lib/terrainMesher.js:1220-1235 | the quad's four vertices loc, loc + du, loc + du + dv, loc + dv after the earlier quads |
| Builder.CoordsBlock | src/lib/terrainMesher.js:1229-1234 | the coordinate-by-coordinate loop writes the four vertices |
| Builder.QuadCoord | src/lib/terrainMesher.js:1224-1227 | w along the first in-plane axis, h along the second |
| Builder.AddNormalValues | src/lib/terrainMesher.js:1258-1263 | the same normal at all four vertices |
| Builder.AddIndexValues | src/lib/terrainMesher.js:1265-1275 | the chosen list, offset by the quad's first vertex |
| Builder.AddAtlasIndices | src/lib/terrainMesher.js:1286-1291 | the atlas index at all four vertices |
| Builder.PushMeshColorsNoAO | src/lib/terrainMesher.js:1303-1311 | the base colour, alpha 1, at each vertex |
| Builder.PushAOColor | src/lib/terrainMesher.js:1323-1329 | the base colour scaled by revAoVal for level 0 and aoVals[level - 1] otherwise, alpha 1 |
| Geometry.QuadInPlane | src/lib/terrainMesher.js:1220-1235 | the quad lies in the plane x[axis] = loc[axis] and spans w by h along the sweep's u and v axes |
| Geometry.QuadOfRect | src/lib/terrainMesher.js:892-919 | a recorded quad's vertices are its rectangle's corners in the plane, and its normal points along d, positive for a positive mask value |
| Geometry.Corners4 | src/lib/terrainMesher.js:1229-1234 | four corners of a parallelogram |
| Geometry.TriangleCross | src/lib/terrainMesher.js:1276-1281 | the base lists wind along du x dv, the flipped lists against it |
| Geometry.CrossEdges | src/lib/terrainMesher.js:1276-1281 | the edge pairs the eight triangles use cross to plus or minus a x b |
| Geometry.DetEdges | src/lib/terrainMesher.js:1276-1281 | CrossEdges for one component |
| Geometry.AxisCross | src/lib/terrainMesher.js:1226-1227 | w along u crossed with h along v points along the axis, negatively for x |
| Geometry.Winding | src/lib/terrainMesher.js:1265-1281 | both triangles of every quad wind the same way against its normal, whichever diagonal is chosen |
| Geometry.NormalTimes | src/lib/terrainMesher.js:1174-1175 | the normal scaled, per direction and list |
| Geometry.IndexBlockVertices | src/lib/terrainMesher.js:1265-1281 | the six indices name only the quad's own four vertices; each triangle has three distinct ones; together they use all four; both contain the diagonal decideTriDir chose |
| Geometry.VertexColor | src/lib/terrainMesher.js:1313-1319 | with AO, vertex n takes the colour of the AO corner at its own corner of the quad; without AO, the material colour |
| Geometry.VertexCorner | src/lib/terrainMesher.js:1382-1448 | a vertex's AO corner is computed from the voxels in its direction from the first cell |
| Geometry.GroupSizes | src/lib/terrainMesher.js:1146-1153 | the arrays have 12, 12, 6, 16 and 4 values per quad, the atlas array exactly when the group uses the atlas |
| Geometry.GroupGeometry | src/lib/terrainMesher.js:1156-1182 | quad g's vertices, normals and indices sit at its blocks |
| Geometry.GroupColors | src/lib/terrainMesher.js:1184-1194 | quad g's colours and atlas indices sit at its blocks |
| Geometry.GroupIndexAt | src/lib/terrainMesher.js:1265-1275 | each index of quad g names one of its own four vertices |
| Geometry.GroupIndicesInRange | src/lib/terrainMesher.js:1146-1182 | every index of the unwrapped index array names a vertex of the group |
| IndexWidth.Uint16 | src/lib/terrainMesher.js:1147 | a Uint16Array store keeps a value in 0 .. 65535 and leaves smaller values as they are |
| IndexWidth.StoredIndices | src/lib/terrainMesher.js:1147 | the stored index array has each value modulo 2^16 |
| IndexWidth.StoredIndexWrap | src/lib/terrainMesher.js:1147 | quad 16384's stored indices are quad 0's |
| IndexWidth.GroupIndexWraps | src/lib/terrainMesher.js:1147 | in a group of more than 16384 quads, quad 16384's stored indices name quad 0's vertices, not its own |

## Left out

- UVs: `addUVs` (src/lib/terrainMesher.js:1239-1256) works in floating point, with an epsilon, so it is not part of this model.
- Float32 storage is not modelled. Positions, normals and atlas indices are integers; colours are reals without Float32 rounding.
- `buildMesh`, the Babylon mesh and material objects, the worker and `postMessage`, `meshChunk`, `initChunk` and `disposeChunk` are left out. They are engine wiring around the core.
- NoDataNdchunkPool: the ndarray wrapper it lends is replaced by the row-major index formula of `Common.Index`.
- Builder.MeshBuilder.CreateMeshData: the order of `for (var key in faceDataSet)` is not stated. Each group appears exactly once, in some order.
- Builder.MeshBuilder.CreateMeshData: every quad's material must index `atlasIndexLookup`. The source would read `undefined` past its end, and that case is not modelled.
- Mask.ConstructMeshMask: material IDs below 32768 are required (`Registry.Registry.Valid`), so the Int16Array mask never wraps. Storing a larger ID would wrap, and that is not modelled.
- Mesher.GreedyMesher.Mesh: `ignoreMaterials` is a constant false, so the real `terrainIDgetter` is always used and the fake one is left out.
- Mesher.GreedyMesher.Mesh: MeshedFaceData structs are values. Two faceDataSets holding the same pooled struct are not modelled as aliases.
- Greedy.ConstructGeometryFromMasks: requires numFaces to be at least the number of face cells, as the count from constructMeshMask always is.
- Missing neighbours: the lookup reads the centre chunk at the clamped coordinate, as the code does (`nab || centerChunk` with `missingCoordLookup`, src/lib/terrainMesher.js:706-712). The model states this behaviour and no other.
- Reverse AO: a corner gets level 0 when any of the three cells behind it is not solid, as the code's `||` says (src/lib/terrainMesher.js:1409-1451). The model states this rule as written.

## Findings

| source | as written | input that shows it | evidently intended | confidence | as-written member | corrected member |
|---|---|---|---|---|---|---|
| src/lib/terrainMesher.js:1147 | triangle indices `faceNum * 4 + list[i]` are stored in a `Uint16Array`, which keeps them modulo 65536 | a 32x32x32 chunk holding a 3D checkerboard of one opaque block and air: no two neighbouring faces merge, so one terrain group gets far more than 16384 quads, and quad 16384's indices 65536 .. 65539 are stored as 0 .. 3, drawing its triangles over quad 0's vertices | every index names a vertex of its own quad (a Uint32Array, or splitting groups at 16384 quads) | not executed | IndexWidth.GroupIndexWraps | Geometry.GroupIndicesInRange |
