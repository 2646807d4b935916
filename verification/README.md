# Volumetric reconstruction of the rover point cloud

The rover streams `sensor_msgs/PointCloud2` messages. A Unity scene decodes
each message into a vertex array and a colour array (`PointCloudSubscriber`).
Several interchangeable components then turn that cloud into a coloured
triangle mesh in two steps:

1. They integrate the points into a truncated signed-distance field (TSDF),
   a box of voxels each holding a distance clamped to `[-truncation, truncation]`.
2. They extract the surface where the field crosses a threshold, with
   marching cubes.

This project models those components in Dafny and proves what each one does
to its grids and mesh lists:

- `TSDF_Marching_Cubes_Algorithm` (`RebuildGrid`) rebuilds the grid on every
  cycle around the cloud's bounding box and fuses with the min-replace rule.
- `MarchingCubesOptimized` (`OptimizedGrid`, `WeightedFusion`) keeps one
  persistent grid and fuses with a weighted running average.
- `TSDFMesher` in `PointCloudMesher_Improved_Robust` (`RobustGrid`) runs two
  passes of radius 1: a minimum pass, then a colour pass.
- `TSDFCreator` (`TsdfCreation`) builds the grid through flat arrays and two jobs.
- `TSDFMarchingCubesTesting` (`MarchingTesting`) extracts from the creator's
  grid with the list-based extractor.
- `TSDFMarchingCubesTesting_Parallel` (`ParallelComponent`, `ParallelMarching`)
  extracts from the creator's grid with a parallel job.
- `PointCloudSubscriber` (`Subscription`) holds the byte decoder and the flag
  handshake.

Shared pieces:

- `Geometry`: vectors, colours, clamping and floors.
- `VoxelIndex`: the row-major flat index `x * sizeY * sizeZ + y * sizeZ + z` and its inverse.
- `MarchingTable`: the lookup tables, as a value with stated assumptions.
- `MinFusion`: the min-replace rule as a fold over the points.
- `VoxelSweep`: the in-place reset and the neighbourhood sweep.
- `CubeMarch`: the list-based `MarchCube`, `GetConfigIndex`, `InBounds` and
  `MarchCubes`.

The list-based extractor appears four times in the source with the same
code:

- `Assets/TSDF_Marching_Cubes_Algorithm.cs:130-220`
- `Assets/Scripts/MarchingCubes/MarchingCubesOptimized.cs:256-346`
- `Assets/PointCloudMesher_Improved_Robust.cs:130-222`
- `Assets/Scripts/MarchingCubes/TSDFMarchingCubesTesting.cs:42-147`

It is modelled once, in `CubeMarch`, on the captured contents of a grid. Each
component's `MarchCubes` method calls it and assigns its own three lists.

Modelling choices:

- **Floats.** Every float is a `real`.
- **Null references.** A null reference is `None` of `Option`.
- **Exceptions.** An exception (an index out of range, a division by zero) is
  a returned `fault` flag, together with the state the source leaves behind
  at that point.
- **Engine services.** `Vector3.Distance` and `math.distance` are a function
  parameter `dist`. `BitConverter.ToSingle` is a function parameter `single`.
  The marching-cubes tables are a `Tables` parameter.

## Model

| member | source | states |
|---|---|---|
| Geometry.Abs | Assets/TSDF_Marching_Cubes_Algorithm.cs:194 | `Mathf.Abs` is non-negative and is the argument or its negation |
| Geometry.Clamp | Assets/TSDF_Marching_Cubes_Algorithm.cs:112 | the result lies in `[lo, hi]`; it is the value itself inside the range, `lo` below it and `hi` above it |
| Geometry.Clamp01 | Assets/TSDF_Marching_Cubes_Algorithm.cs:198 | the clamped crossing parameter lies in `[0, 1]` |
| Geometry.LerpBetween | Assets/TSDF_Marching_Cubes_Algorithm.cs:200 | for a parameter in `[0, 1]` the interpolant lies between its two ends, whichever is smaller |
| Geometry.FloorToInt | Assets/TSDF_Marching_Cubes_Algorithm.cs:91-93 | the result is the greatest integer not above the argument |
| Geometry.CeilToInt | Assets/TSDF_Marching_Cubes_Algorithm.cs:61-63 | the result is the least integer not below the argument |
| Geometry.Min | Assets/PointCloudMesher_Improved_Robust.cs:81 | `Mathf.Min` is below both arguments and equal to one of them |
| Geometry.Bounds | Assets/TSDF_Marching_Cubes_Algorithm.cs:43-50 | the `Vector3.Min`/`Vector3.Max` fold gives the component-wise minimum and maximum of the batch: below/above every point, each coordinate attained by some point, and minimum below maximum |
| Geometry.MaxCornerUnique | Assets/TSDF_Marching_Cubes_Algorithm.cs:43-50 | a batch has only one maximum corner |
| Geometry.GridDim | Assets/TSDF_Marching_Cubes_Algorithm.cs:61-63 | `CeilToInt(span / resolution) + 1` is at least 1, and its voxels cover the span: `span <= (n - 1) * resolution` |
| Geometry.CellInGrid | Assets/TSDF_Marching_Cubes_Algorithm.cs:90-93 | a coordinate between the minimum and the maximum of its axis has its voxel `FloorToInt((p - min) / resolution)` inside `[0, GridDim)` |
| Geometry.HomeInGrid | Assets/Scripts/MarchingCubes/TSDFCreator.cs:40-51 | every point of the cloud has its home voxel inside the grid framed on the cloud's bounding box |
| MarchingTable.Config | Assets/TSDF_Marching_Cubes_Algorithm.cs:148-154 | the configuration index lies in `[0, 256)` |
| MarchingTable.ConfigUpTo | Assets/TSDF_Marching_Cubes_Algorithm.cs:150-152 | the index built from the first n corners lies in `[0, 2^n)` |
| MarchingTable.ConfigSum | Assets/TSDF_Marching_Cubes_Algorithm.cs:148-154 | the index is the sum over the corners above the threshold of `1 << i` |
| MarchingTable.ConfigIsBits | Assets/Scripts/MarchingCubes/TSDFMarchingCubesTesting_Parallel.cs:306-314 | the index equals the bit set whose bit i is `cube[i] > threshold` |
| MarchingTable.ConfigBit | Assets/TSDF_Marching_Cubes_Algorithm.cs:152 | bit i of the index is set exactly when corner i is above the threshold |
| MarchingTable.ConfigEmptyOrFull | Assets/TSDF_Marching_Cubes_Algorithm.cs:159 | configuration 0 means no corner is above the threshold and 255 that all are, in both directions |
| VoxelIndex.IndexInRange | Assets/Scripts/MarchingCubes/TSDFCreator.cs:183 | a voxel of the box has a flat index in `[0, sizeX * sizeY * sizeZ)` |
| VoxelIndex.UnflattenIndex | Assets/Scripts/MarchingCubes/TSDFMarchingCubesTesting_Parallel.cs:360 | `(k / strideYZ, (k % strideYZ) / sizeZ, k % sizeZ)` recovers the voxel whose flat index is k |
| VoxelIndex.IndexUnflatten | Assets/Scripts/MarchingCubes/TSDFCreator.cs:104-119 | every flat index in range is the index of the voxel it unflattens to, and that voxel is in the box: the index is onto |
| VoxelIndex.IndexInjective | Assets/Scripts/MarchingCubes/TSDFCreator.cs:110 | two voxels of the box with the same flat index are the same voxel |
| VoxelIndex.IndexOnly | Assets/Scripts/MarchingCubes/TSDFCreator.cs:104-119 | no other voxel of the box shares a voxel's flat slot, so the unflatten loop writes each voxel from its own slot |
| VoxelIndex.Slot | Assets/Scripts/MarchingCubes/TSDFCreator.cs:183 | the slot of a voxel of the box is its flat index and lies inside the flat array |
| VoxelIndex.CubeCellInBox | Assets/Scripts/MarchingCubes/TSDFMarchingCubesTesting_Parallel.cs:288-292 | the job's decode maps every cube number in `[0, cubeCount)` to a cube of the box whose row-major index is that number again |
| VoxelIndex.CubeCellIsUnflatten | Assets/Scripts/MarchingCubes/TSDFMarchingCubesTesting_Parallel.cs:288-292 | on the cubes of the box, the job's decode inverts the row-major numbering |
| VoxelIndex.CubeCellInjective | Assets/Scripts/MarchingCubes/TSDFMarchingCubesTesting_Parallel.cs:288-292 | distinct cube numbers decode to distinct cubes |
| VoxelIndex.IndexShift | Assets/Scripts/MarchingCubes/TSDFMarchingCubesTesting_Parallel.cs:143 | the flat index of corner `(x + cx, y + cy, z + cz)` is the cube's flat index plus the corner's own offset |
| VoxelIndex.WalkFlatten | Assets/Scripts/MarchingCubes/TSDFMarchingCubesTesting_Parallel.cs:288-292 | outputs numbered by the row-major index, concatenated in number order, are the outputs in the visiting order of the x, y, z loops |
| MinFusion.Sweep.Candidate | Assets/TSDF_Marching_Cubes_Algorithm.cs:109-112 | the candidate `clamp(dist - resolution, -T, T)` lies in `[-T, T]` |
| MinFusion.MinFold | Assets/TSDF_Marching_Cubes_Algorithm.cs:83-124 | a voxel's value after any number of points lies in `[-T, T]` |
| MinFusion.MinFoldMonotone | Assets/TSDF_Marching_Cubes_Algorithm.cs:118-122 | values never increase as more points are fused |
| MinFusion.MinFoldBelow | Assets/TSDF_Marching_Cubes_Algorithm.cs:118-122 | a voxel's value is at most the candidate of every point whose sweep reaches it |
| MinFusion.MinFoldAttained | Assets/TSDF_Marching_Cubes_Algorithm.cs:118-122 | a voxel's value is `truncation` or the candidate of some point reaching it |
| MinFusion.MinFoldIsMinimum | Assets/Scripts/MarchingCubes/TSDFCreator.cs:189-193 | a voxel's value is the minimum of `truncation` and the candidates of the points reaching it: at most each, equal to one |
| MinFusion.Untouched | Assets/Scripts/MarchingCubes/TSDFCreator.cs:175-181 | a voxel no point reaches keeps `truncation` and its initial colour |
| MinFusion.ColorOfFirstMinimum | Assets/TSDF_Marching_Cubes_Algorithm.cs:118-122 | a voxel below `truncation` has the colour of the first point, in order, whose candidate is its final value (every earlier reaching point has a larger candidate); a voxel at `truncation` keeps its initial colour |
| MinFusion.ColorFoldPrefix | Assets/Scripts/MarchingCubes/TSDFCreator.cs:68-80 | a voxel's colour depends only on the colours of the points fused so far, so a colour array copied into a longer one fuses the same |
| VoxelSweep.Reset | Assets/TSDF_Marching_Cubes_Algorithm.cs:71-74 | after the triple loop every voxel holds `truncation` |
| VoxelSweep.Allocate | Assets/TSDF_Marching_Cubes_Algorithm.cs:66-74 | fresh grids of the given shape: every value `truncation`, every colour the zero colour |
| VoxelSweep.SweepPoint | Assets/TSDF_Marching_Cubes_Algorithm.cs:99-123 | after one point's sweep, every voxel within `radius` of its home voxel and inside the grid holds the smaller of its value and the candidate, and takes the point's colour when the candidate is strictly smaller; no other voxel changes |
| VoxelSweep.SweepColumn | Assets/TSDF_Marching_Cubes_Algorithm.cs:101-123 | the dz loop changes only the voxels of its column, each as the min-replace rule says |
| VoxelSweep.FramesBox | Assets/TSDF_Marching_Cubes_Algorithm.cs:53-63 | a grid at the minimum corner with `CeilToInt(span / resolution) + 1` voxels per axis contains every point's home voxel |
| VoxelSweep.FrameBatch | Assets/TSDF_Marching_Cubes_Algorithm.cs:43-63 | bounds, origin and sizes of a non-empty batch frame the batch |
| VoxelSweep.FreshGrid | Assets/TSDF_Marching_Cubes_Algorithm.cs:66-74 | a freshly allocated and reset grid holds what zero points leave |
| VoxelSweep.FusedNone | Assets/TSDF_Marching_Cubes_Algorithm.cs:69-74 | a grid reset to `truncation` with zero colours is the fold of no points |
| VoxelSweep.FuseAll | Assets/TSDF_Marching_Cubes_Algorithm.cs:83-124 | the point loop fuses the points in order until the colours run out (the `pc_colors[i]` fault); afterwards each voxel holds `MinFold` and `ColorFold` of the points fused |
| WeightedFusion.FuseIsLerp | Assets/Scripts/MarchingCubes/MarchingCubesOptimized.cs:237 | `(old * w + v) / (w + 1)` is the interpolation from old towards v by `1 / (w + 1)` |
| WeightedFusion.FuseBetween | Assets/Scripts/MarchingCubes/MarchingCubesOptimized.cs:237 | the fused value lies between the old value and the candidate |
| WeightedFusion.FuseInRange | Assets/Scripts/MarchingCubes/MarchingCubesOptimized.cs:237 | fusing two values in `[-T, T]` stays in `[-T, T]` |
| WeightedFusion.FuseExact | Assets/Scripts/MarchingCubes/MarchingCubesOptimized.cs:237 | the fused value equals the candidate exactly when the old weight is 0 or the old value already was the candidate |
| WeightedFusion.BlendIsFuse | Assets/Scripts/MarchingCubes/MarchingCubesOptimized.cs:239 | `Color.Lerp(prev, c, 1 / (w + 1))` applies the same running average to each channel |
| WeightedFusion.FuseMean | Assets/Scripts/MarchingCubes/MarchingCubesOptimized.cs:237-240 | fusing one more candidate into the mean of n candidates at weight n gives the mean of the n + 1 |
| WeightedFusion.Accumulate | Assets/Scripts/MarchingCubes/MarchingCubesOptimized.cs:240 | after k accepted updates from weight 0 the weight is k |
| WeightedFusion.AccumulateIsMean | Assets/Scripts/MarchingCubes/MarchingCubesOptimized.cs:237-240 | once any candidates have been accepted, the running average from weight 0 equals their mean (`OptimizedGrid.WeightedIsAccumulate` ties grid voxels to it) |
| CubeMarch.Capture | Assets/TSDF_Marching_Cubes_Algorithm.cs:138-143 | the grid contents the extraction reads are exactly the arrays' first `sizeX × sizeY × sizeZ` voxels and colours |
| CubeMarch.ExtendContents | Assets/TSDF_Marching_Cubes_Algorithm.cs:203-209 | appending vertices adds their positions and colours in order, and the indices `|vertices|, |vertices| + 1, …` to the triangle list |
| CubeMarch.ExtendConcat | Assets/TSDF_Marching_Cubes_Algorithm.cs:203-209 | appending two batches one after the other is appending their concatenation |
| CubeMarch.ExtendLockstep | Assets/TSDF_Marching_Cubes_Algorithm.cs:203-209 | the three lists stay equal in length with `triangles[k] == k`, and each vertex adds one entry |
| CubeMarch.EdgePointOnEdge | Assets/TSDF_Marching_Cubes_Algorithm.cs:198-200 | for alpha in `[0, 1]` the interpolated point lies in the box spanned by the edge's two ends |
| CubeMarch.EdgeVertexOnEdge | Assets/TSDF_Marching_Cubes_Algorithm.cs:194-201 | an emitted vertex is the world position of a point on its cube edge |
| CubeMarch.Stop | Assets/TSDF_Marching_Cubes_Algorithm.cs:165-166 | the walk of a row stops at the first `-1` at or after k, or at 15 |
| CubeMarch.StopClear | Assets/TSDF_Marching_Cubes_Algorithm.cs:165-166 | no entry before the stop is `-1` |
| CubeMarch.RowEntries | Assets/TSDF_Marching_Cubes_Algorithm.cs:165 | the entries before the stop of a valid row are edge numbers in `[0, 12)` |
| CubeMarch.EmittedLength | Assets/TSDF_Marching_Cubes_Algorithm.cs:161-166 | each table entry emits at most one vertex |
| CubeMarch.CellOutBound | Assets/TSDF_Marching_Cubes_Algorithm.cs:161-163 | a cube emits at most 15 vertices (five triangles) |
| CubeMarch.GrowEmitted | Assets/TSDF_Marching_Cubes_Algorithm.cs:165-209 | handling entry n after the first n entries gives the mesh of the first n + 1 |
| CubeMarch.WalkExtends | Assets/TSDF_Marching_Cubes_Algorithm.cs:161-212 | the entry-by-entry walk of a row extends the mesh by the vertices of the entries walked |
| CubeMarch.GetConfigIndex | Assets/TSDF_Marching_Cubes_Algorithm.cs:148-154 | the loop returns an index in `[0, 256)` whose bit i is set exactly when `cube[i]` is above the threshold |
| CubeMarch.AddEdgeVertex | Assets/TSDF_Marching_Cubes_Algorithm.cs:181-209 | one entry appends the vertex of its edge: position and colour interpolated with the clamped alpha, and nothing when an end corner is outside the grid or the two values are within `1e-6` |
| CubeMarch.MarchCube | Assets/TSDF_Marching_Cubes_Algorithm.cs:156-213 | the lists are extended by exactly the vertices of the row's entries up to its first `-1`, and by nothing for configurations 0 and 255 |
| CubeMarch.CubeAt | Assets/TSDF_Marching_Cubes_Algorithm.cs:139-143 | the eight corner values of a cube, in table order |
| CubeMarch.CubeCornersInBounds | Assets/TSDF_Marching_Cubes_Algorithm.cs:184-188 | every corner of a cube with `x < sizeX - 1`, `y < sizeY - 1`, `z < sizeZ - 1` is a voxel of the grid, so the corner reads are in bounds and the `InBounds` skip is never taken |
| CubeMarch.MarchCubeAt | Assets/TSDF_Marching_Cubes_Algorithm.cs:137-144 | the z-loop body extends the lists by the cube's own output |
| CubeMarch.CubeStep | Assets/TSDF_Marching_Cubes_Algorithm.cs:134-145 | one pass of the z loop extends the mesh of the cubes visited so far by the next cube |
| CubeMarch.MarchCubes | Assets/TSDF_Marching_Cubes_Algorithm.cs:134-145 | the loops visit every cube once, x-major, and extend the lists by the output of each in that order |
| RebuildGrid.TsdfMarchingCubesAlgorithm.Radius | Assets/TSDF_Marching_Cubes_Algorithm.cs:97 | the sweep radius `CeilToInt(truncation / resolution)` is non-negative |
| RebuildGrid.TsdfMarchingCubesAlgorithm.Pass | Assets/TSDF_Marching_Cubes_Algorithm.cs:90-112 | the sweep uses the component's origin, sizes, resolution, truncation, distance and radius |
| RebuildGrid.TsdfMarchingCubesAlgorithm.constructor | Assets/TSDF_Marching_Cubes_Algorithm.cs:20-31 | before the first cycle there is no grid and the lists are empty |
| RebuildGrid.TsdfMarchingCubesAlgorithm.Contents | Assets/TSDF_Marching_Cubes_Algorithm.cs:138-143 | the captured grid is a valid box of the current sizes |
| RebuildGrid.TsdfMarchingCubesAlgorithm.CreateTSDF | Assets/TSDF_Marching_Cubes_Algorithm.cs:33-128 | a null array returns with nothing changed, and an empty cloud faults on `pc_vertices[0]` with nothing changed. Otherwise the grid is framed on the bounding box and holds the fold of the points fused. A short colour array faults with the mesh unchanged; a complete pass leaves the mesh of the new grid |
| RebuildGrid.TsdfMarchingCubesAlgorithm.Integrate | Assets/TSDF_Marching_Cubes_Algorithm.cs:83-126 | the point loop faults exactly when the colours are fewer than the points; the grid holds the fold of the points fused; after a complete pass the lists hold the extracted mesh |
| RebuildGrid.TsdfMarchingCubesAlgorithm.Rebuild | Assets/TSDF_Marching_Cubes_Algorithm.cs:43-74 | the new grid frames the cloud, is freshly allocated and is reset to `truncation` with zero colours |
| RebuildGrid.TsdfMarchingCubesAlgorithm.MarchCubes | Assets/TSDF_Marching_Cubes_Algorithm.cs:130-146 | the lists are cleared and then hold the mesh extracted from the current grid |
| RebuildGrid.TsdfMarchingCubesAlgorithm.ClearMesh | Assets/TSDF_Marching_Cubes_Algorithm.cs:234-239 | all three lists are empty |
| OptimizedGrid.FuseVoxel | Assets/Scripts/MarchingCubes/MarchingCubesOptimized.cs:232-241 | the candidate is accepted exactly when it is below `tsdf[x, z, y]`; acceptance sets value `(old * w + v) / (w + 1)`, weight `w + 1` and the blended colour, rejection changes nothing; no other voxel changes; values stay in `[-T, T]` and weights non-negative |
| OptimizedGrid.FuseColumn | Assets/Scripts/MarchingCubes/MarchingCubesOptimized.cs:215-249 | only the voxels of the column change; each one's test reads `[x, z, y]` as it stood when the column started |
| OptimizedGrid.FusePoint | Assets/Scripts/MarchingCubes/MarchingCubesOptimized.cs:213-249 | a voxel the sweep reaches accepts its candidate when it is below the value at `[x, z, y]`. That value is the one after the sweep when `z < y` and the one before it otherwise. An accepted voxel takes the fused value, one more unit of weight and the blended colour; every voxel equals `Step` of its own and its mirror's state before the sweep. Untouched voxels keep value, weight and colour, and the range invariant holds |
| OptimizedGrid.Fill | Assets/Scripts/MarchingCubes/MarchingCubesOptimized.cs:55-66 | every voxel holds `truncation`, blue and weight 0 |
| OptimizedGrid.Weighted | Assets/Scripts/MarchingCubes/MarchingCubesOptimized.cs:195-249 | the state of a voxel after the first n points, each sweep applied in order; weights stay non-negative |
| OptimizedGrid.WeightedCounts | Assets/Scripts/MarchingCubes/MarchingCubesOptimized.cs:232-241 | the weight of a voxel grows by exactly one per accepted candidate, so by at most the number of points |
| OptimizedGrid.WeightedIsAccumulate | Assets/Scripts/MarchingCubes/MarchingCubesOptimized.cs:232-241 | a voxel that starts at weight 0 holds `Accumulate` of the candidates it accepted, in order; once it accepted any, its value is their mean |
| OptimizedGrid.WeightedUnreached | Assets/Scripts/MarchingCubes/MarchingCubesOptimized.cs:213-218 | a voxel no point reaches keeps its state and accepts nothing |
| OptimizedGrid.FoldIntegrated | Assets/Scripts/MarchingCubes/MarchingCubesOptimized.cs:213-241 | over the fold of n points every weight grows by at most n, and every voxel no point reaches keeps its state |
| OptimizedGrid.FuseCloud | Assets/Scripts/MarchingCubes/MarchingCubesOptimized.cs:195-250 | the points are fused in order until the colours run out. Every voxel then holds `Weighted`, the fold of the fused points over the grids before the loop. Each weight grows by at most the number of points fused, voxels no fused point reaches keep their state, and the range invariant holds |
| OptimizedGrid.MarchingCubesOptimized.Pass | Assets/Scripts/MarchingCubes/MarchingCubesOptimized.cs:204-211 | the sweep uses the persistent origin and sizes and a non-negative radius |
| OptimizedGrid.MarchingCubesOptimized.constructor | Assets/Scripts/MarchingCubes/MarchingCubesOptimized.cs:29-39 | after `Start` the grid is `CeilToInt(10 / resolution) + 1` voxels a side, every voxel blank, with no origin yet and no mesh |
| OptimizedGrid.MarchingCubesOptimized.InitializeTSDF | Assets/Scripts/MarchingCubes/MarchingCubesOptimized.cs:41-67 | all three sizes are `CeilToInt(10 / resolution) + 1`, and every voxel holds `truncation`, blue and weight 0 |
| OptimizedGrid.MarchingCubesOptimized.CopyTSDF | Assets/Scripts/MarchingCubes/MarchingCubesOptimized.cs:69-137 | an empty cloud faults on `pc_vertices[0]`. Otherwise the origin becomes the cloud's minimum corner, and the call faults exactly when the cloud's box outgrows the grid by more than 10 voxels on some axis; the grids are never replaced |
| OptimizedGrid.MarchingCubesOptimized.CopyGrid | Assets/Scripts/MarchingCubes/MarchingCubesOptimized.cs:106-127 | with some new size more than 10 beyond the old one, the copy loop always faults: the write to the old `weightGrid` at line 116 is out of range |
| OptimizedGrid.MarchingCubesOptimized.Contents | Assets/Scripts/MarchingCubes/MarchingCubesOptimized.cs:256-272 | the captured grid is a valid box of the persistent sizes |
| OptimizedGrid.MarchingCubesOptimized.CreateTSDF | Assets/Scripts/MarchingCubes/MarchingCubesOptimized.cs:139-254 | a null array returns with nothing changed, and an empty first cloud faults with nothing changed. The first cycle with a cloud sets the origin to its minimum corner and later cycles keep it. The fault is a short colour array; every voxel holds `Weighted`, the fold of the fused points over its state before the cycle; a complete pass leaves the extracted mesh; the range invariant holds throughout |
| OptimizedGrid.MarchingCubesOptimized.Integrate | Assets/Scripts/MarchingCubes/MarchingCubesOptimized.cs:197-253 | the fusion faults exactly when the colours run out. Every voxel holds `Weighted`, the fold of the fused points over its state before; weights grow by at most one per fused point, unreached voxels keep their state, and a complete pass ends with the extraction |
| OptimizedGrid.MarchingCubesOptimized.MarchCubes | Assets/Scripts/MarchingCubes/MarchingCubesOptimized.cs:256-272 | the lists hold the mesh extracted from the persistent grid |
| OptimizedGrid.MarchingCubesOptimized.ClearMesh | Assets/Scripts/MarchingCubes/MarchingCubesOptimized.cs:360-365 | all three lists are empty |
| RobustGrid.MinSweepColumn | Assets/PointCloudMesher_Improved_Robust.cs:73-82 | the dz loop of the first pass changes only its column, each voxel taking the smaller of its value and the candidate |
| RobustGrid.MinSweepPoint | Assets/PointCloudMesher_Improved_Robust.cs:66-82 | each voxel within 1 of the home voxel takes `Mathf.Min` of its value and the candidate; no other voxel changes |
| RobustGrid.FirstPass | Assets/PointCloudMesher_Improved_Robust.cs:64-83 | from the reset grid, every voxel ends at the minimum over all points (`MinFold` with radius 1) |
| RobustGrid.NoStrictImprovement | Assets/PointCloudMesher_Improved_Robust.cs:107-111 | once a voxel holds the minimum over all points, no point's candidate is strictly below it, so the second pass's test fails and neither value nor colour changes |
| RobustGrid.SecondPass | Assets/PointCloudMesher_Improved_Robust.cs:85-113 | the pass faults exactly when a point has no colour (a null colour array faults on the first point). On the points it reaches it changes nothing, so the grid keeps the minima and the colour grid stays zero |
| RobustGrid.EdgeVertexUncoloured | Assets/PointCloudMesher_Improved_Robust.cs:209-211 | interpolating between two zero colours gives the zero colour |
| RobustGrid.EmittedUncoloured | Assets/PointCloudMesher_Improved_Robust.cs:158-215 | every vertex a row emits from a colourless grid has the zero colour |
| RobustGrid.CubeOutUncoloured | Assets/PointCloudMesher_Improved_Robust.cs:158-215 | a cube of a colourless grid emits only zero-coloured vertices |
| RobustGrid.BeforeUncoloured | Assets/PointCloudMesher_Improved_Robust.cs:136-147 | the cubes visited so far emit only zero-coloured vertices |
| RobustGrid.ClearMeshColors | Assets/PointCloudMesher_Improved_Robust.cs:130-148 | every vertex colour of the mesh extracted from a colourless grid is the zero colour |
| RobustGrid.TsdfMesher.Pass | Assets/PointCloudMesher_Improved_Robust.cs:71-73 | both passes sweep radius 1 around the home voxel, on the current origin and sizes |
| RobustGrid.TsdfMesher.constructor | Assets/PointCloudMesher_Improved_Robust.cs:19-31 | before the first cycle there is no grid and no mesh |
| RobustGrid.TsdfMesher.Contents | Assets/PointCloudMesher_Improved_Robust.cs:140-145 | the captured grid is a valid box of the current sizes |
| RobustGrid.TsdfMesher.UpdateMeshFromPointCloud | Assets/PointCloudMesher_Improved_Robust.cs:33-117 | a missing cloud or an empty one returns with nothing changed. Otherwise the grid frames the cloud and holds every voxel's minimum with no colour. The fault is a missing or short colour array, which leaves the mesh unchanged; a complete cycle leaves the extracted mesh with every vertex colour zero |
| RobustGrid.TsdfMesher.Integrate | Assets/PointCloudMesher_Improved_Robust.cs:64-115 | after both passes the grid holds the minima and no colour; the fault condition is the colour array's; a complete cycle ends with a zero-coloured extraction |
| RobustGrid.TsdfMesher.ExtractColorless | Assets/PointCloudMesher_Improved_Robust.cs:115 | extracting from a colourless grid gives the mesh of the grid with every vertex colour zero |
| RobustGrid.TsdfMesher.Rebuild | Assets/PointCloudMesher_Improved_Robust.cs:43-61 | the new grid frames the cloud, is fresh, is reset to `truncation`, and has zero colours |
| RobustGrid.TsdfMesher.MarchCubes | Assets/PointCloudMesher_Improved_Robust.cs:130-148 | the lists are cleared and then hold the mesh extracted from the current grid |
| RobustGrid.TsdfMesher.ClearMesh | Assets/PointCloudMesher_Improved_Robust.cs:132-134 | all three lists are empty |
| TsdfCreation.ResetJob.Execute | Assets/Scripts/MarchingCubes/TSDFCreator.cs:143 | entry i becomes `truncation` and no other entry changes |
| TsdfCreation.ResetJob.Run | Assets/Scripts/MarchingCubes/TSDFCreator.cs:60-65 | after the reset job the first n flat entries hold `truncation` and the rest are unchanged |
| TsdfCreation.IntegrationJob.Execute | Assets/Scripts/MarchingCubes/TSDFCreator.cs:165-195 | every flat voxel changes as the min-replace rule says for point i, through its flat slot |
| TsdfCreation.IntegrationJob.SweepColumn | Assets/Scripts/MarchingCubes/TSDFCreator.cs:177-194 | only the voxels of the dz column change, each by the min-replace rule |
| TsdfCreation.IntegrationJob.Run | Assets/Scripts/MarchingCubes/TSDFCreator.cs:83-101 | from a reset grid, the job over all points leaves the flat fold of the whole cloud |
| TsdfCreation.IntegrationJob.Step | Assets/Scripts/MarchingCubes/TSDFCreator.cs:98 | `Execute(i)` on the fold of the first i points leaves the fold of the first i + 1 |
| TsdfCreation.IntegrationJob.FusedStep | Assets/Scripts/MarchingCubes/TSDFCreator.cs:165-195 | a sweep of point i over the fold of the first i points leaves the fold of the first i + 1 |
| TsdfCreation.Expand | Assets/Scripts/MarchingCubes/TSDFCreator.cs:104-119 | the unflatten loop gives fresh grids of the frame's shape in which voxel (x, y, z) holds flat entry `x * strideYZ + y * sizeZ + z` |
| TsdfCreation.CopyCloud | Assets/Scripts/MarchingCubes/TSDFCreator.cs:68-80 | the copy faults exactly when a point has no colour; otherwise it copies the points and colours in order |
| TsdfCreation.Integrate | Assets/Scripts/MarchingCubes/TSDFCreator.cs:53-119 | the flat pipeline faults exactly when the colours are fewer than the points; otherwise it gives fresh grids holding the fold of the whole cloud |
| TsdfCreation.StartFlat | Assets/Scripts/MarchingCubes/TSDFCreator.cs:60-65 | a flat grid reset to `truncation` with zero colours is the fold of no points |
| TsdfCreation.FusedExpanded | Assets/Scripts/MarchingCubes/TSDFCreator.cs:104-119 | unflattening the flat fold gives the 3D fold of the same cloud and colours |
| TsdfCreation.TsdfCreator.Pass | Assets/Scripts/MarchingCubes/TSDFCreator.cs:83-97 | the job's sweep parameters are the creator's origin, sizes, radius, resolution and truncation |
| TsdfCreation.TsdfCreator.constructor | Assets/Scripts/MarchingCubes/TSDFCreator.cs:10-24 | a creator before `Start` has no grid and radius 0 |
| TsdfCreation.TsdfCreator.Start | Assets/Scripts/MarchingCubes/TSDFCreator.cs:26-29 | the radius is the least non-negative whole number of voxels spanning `truncation` |
| TsdfCreation.TsdfCreator.Frame | Assets/Scripts/MarchingCubes/TSDFCreator.cs:40-51 | origin and sizes frame the cloud, and `strideYZ == sizeY * sizeZ` |
| TsdfCreation.TsdfCreator.CreateTSDFGrid | Assets/Scripts/MarchingCubes/TSDFCreator.cs:31-126 | a null or empty array returns with nothing changed. Otherwise the frame is set, and the copy faults exactly on a short colour array, leaving the previous grids. A complete cycle installs grids holding the min-replace fold of the cloud |
| TsdfCreation.TsdfCreator.Install | Assets/Scripts/MarchingCubes/TSDFCreator.cs:104-105 | the new grids replace the managed ones and hold the fold of the cloud |
| MarchingTesting.TsdfMarchingCubesTesting.constructor | Assets/Scripts/MarchingCubes/TSDFMarchingCubesTesting.cs:16-40 | the component starts with empty lists over the given creator |
| MarchingTesting.TsdfMarchingCubesTesting.MarchCubes | Assets/Scripts/MarchingCubes/TSDFMarchingCubesTesting.cs:42-73 | A complete cloud gives the mesh of the grid just fused. A creator fault, or a creator with no grid, leaves the lists as they were. Otherwise the lists are refilled over the creator's size fields, faulting exactly when a corner read falls outside its arrays |
| MarchingTesting.TsdfMarchingCubesTesting.Finish | Assets/Scripts/MarchingCubes/TSDFMarchingCubesTesting.cs:50-68 | from what the creator returned, the cycle meets the promise stated for `MarchCubes` |
| MarchingTesting.TsdfMarchingCubesTesting.Refresh | Assets/Scripts/MarchingCubes/TSDFMarchingCubesTesting.cs:55-68 | when the size fields fit the arrays the lists hold the grid's mesh; otherwise the loops fault exactly when some corner read is outside the arrays, and without a fault the lists are empty |
| MarchingTesting.TsdfMarchingCubesTesting.Extract | Assets/Scripts/MarchingCubes/TSDFMarchingCubesTesting.cs:57-68 | over size fields within the arrays, the lists hold the mesh of the creator's grid |
| MarchingTesting.TsdfMarchingCubesTesting.ClearMesh | Assets/Scripts/MarchingCubes/TSDFMarchingCubesTesting.cs:160-165 | all three lists are empty |
| MarchingTesting.FitsReadsInside | Assets/Scripts/MarchingCubes/TSDFMarchingCubesTesting.cs:57-65 | size fields within the arrays keep every corner read inside them |
| MarchingTesting.OverrunReadsOutside | Assets/Scripts/MarchingCubes/TSDFMarchingCubesTesting.cs:57-65 | a size field past its array, with at least one cube to visit, sends the far-corner read of the last cube on that axis outside the arrays |
| MarchingTesting.NoCubesReadNothing | Assets/Scripts/MarchingCubes/TSDFMarchingCubesTesting.cs:57-59 | with a size field below 2 the loops read nothing |
| MarchingTesting.View | Assets/Scripts/MarchingCubes/TSDFMarchingCubesTesting.cs:57-65 | the grid the loops read is the creator's grid cropped to its size fields |
| ParallelComponent.FillEdges | Assets/Scripts/MarchingCubes/TSDFMarchingCubesTesting_Parallel.cs:50-55 | entries `2e` and `2e + 1` are the two ends of edge e |
| ParallelComponent.FillTriangles | Assets/Scripts/MarchingCubes/TSDFMarchingCubesTesting_Parallel.cs:58-65 | entry `16 i + j` is entry j of row i |
| ParallelComponent.FlattenGrid | Assets/Scripts/MarchingCubes/TSDFMarchingCubesTesting_Parallel.cs:109-130 | every voxel of the box is copied to its flat slot, value and colour |
| ParallelComponent.CopyVoxel | Assets/Scripts/MarchingCubes/TSDFMarchingCubesTesting_Parallel.cs:109-130 | one pass of the copy loops fills the slot of its voxel, keeping every earlier slot filled |
| ParallelComponent.CornerOffsets | Assets/Scripts/MarchingCubes/TSDFMarchingCubesTesting_Parallel.cs:133-145 | offset i is the flat index of table corner i |
| ParallelComponent.CopyOut | Assets/Scripts/MarchingCubes/TSDFMarchingCubesTesting_Parallel.cs:197-212 | the mesh arrays are the first `vCount` entries of the job's outputs |
| ParallelComponent.Indices | Assets/Scripts/MarchingCubes/TSDFMarchingCubesTesting_Parallel.cs:215-221 | the triangle array is exactly `0, 1, …, n - 1` |
| ParallelComponent.Collect | Assets/Scripts/MarchingCubes/TSDFMarchingCubesTesting_Parallel.cs:197-221 | the three mesh arrays are the mesh of the emitted vertices in lockstep, and the vertex count is a multiple of 3 |
| ParallelComponent.CubesFit | Assets/Scripts/MarchingCubes/TSDFMarchingCubesTesting_Parallel.cs:154-161 | `cubeCount <= totalVoxels`, so `15 * cubeCount` fits the output arrays of `totalVoxels * 15` entries |
| ParallelComponent.MeshOf | Assets/Scripts/MarchingCubes/TSDFMarchingCubesTesting_Parallel.cs:197-221 | the mesh of a run of vertices is their positions, the indices `0 … n - 1` and their colours, in lockstep |
| ParallelComponent.TsdfMarchingCubesParallel.constructor | Assets/Scripts/MarchingCubes/TSDFMarchingCubesTesting_Parallel.cs:26-37 | before `Start` there are no lookup tables and no mesh |
| ParallelComponent.TsdfMarchingCubesParallel.Start | Assets/Scripts/MarchingCubes/TSDFMarchingCubesTesting_Parallel.cs:40-69 | the flat lookup tables hold the tables, and the mesh is empty |
| ParallelComponent.TsdfMarchingCubesParallel.OnDestroy | Assets/Scripts/MarchingCubes/TSDFMarchingCubesTesting_Parallel.cs:71-75 | both flat lookup tables are disposed |
| ParallelComponent.TsdfMarchingCubesParallel.MarchCubes | Assets/Scripts/MarchingCubes/TSDFMarchingCubesTesting_Parallel.cs:77-253 | A complete cloud gives the job's mesh of the grid just fused. A creator fault, or a null colour grid (line 94), leaves the mesh as it was. Otherwise the copy loops fault exactly when the size fields outrun the arrays, and the mesh is rebuilt when they do not |
| ParallelComponent.TsdfMarchingCubesParallel.Finish | Assets/Scripts/MarchingCubes/TSDFMarchingCubesTesting_Parallel.cs:90-253 | from what the creator returned, the cycle meets the promise stated for `MarchCubes` |
| ParallelComponent.TsdfMarchingCubesParallel.Extract | Assets/Scripts/MarchingCubes/TSDFMarchingCubesTesting_Parallel.cs:97-237 | faults exactly when the size fields outrun the creator's arrays, leaving the mesh unchanged; otherwise the mesh is what the job emits |
| ParallelComponent.TsdfMarchingCubesParallel.March | Assets/Scripts/MarchingCubes/TSDFMarchingCubesTesting_Parallel.cs:109-221 | the mesh arrays are the job's mesh of the grid, in lockstep, with a vertex count that is a multiple of 3 |
| ParallelComponent.TsdfMarchingCubesParallel.RunJob | Assets/Scripts/MarchingCubes/TSDFMarchingCubesTesting_Parallel.cs:133-197 | the counter ends at the number of vertices the job emits for the grid, the output arrays hold them, and they are whole triangles |
| ParallelMarching.JobVertexManaged | Assets/Scripts/MarchingCubes/TSDFMarchingCubesTesting_Parallel.cs:351-371 | where the corners differ by at least `1e-6` the job's vertex is the list-based extractor's; where they differ by less, only the job emits one |
| ParallelMarching.JobVertexOnEdge | Assets/Scripts/MarchingCubes/TSDFMarchingCubesTesting_Parallel.cs:358-360 | the job's vertex lies on its cube edge |
| ParallelMarching.Triples | Assets/Scripts/MarchingCubes/TSDFMarchingCubesTesting_Parallel.cs:323-329 | the job's walk of a row emits whole triangles, three entries at a time, up to the first triple with a `-1` |
| ParallelMarching.TriplesStep | Assets/Scripts/MarchingCubes/TSDFMarchingCubesTesting_Parallel.cs:325-334 | where three entries name edges, the walk starts with their three vertices |
| ParallelMarching.TriplesWhole | Assets/Scripts/MarchingCubes/TSDFMarchingCubesTesting_Parallel.cs:323-348 | what the walk emits is whole triangles |
| ParallelMarching.WholeLength | Assets/Scripts/MarchingCubes/TSDFMarchingCubesTesting_Parallel.cs:338 | a run of whole triangles has a length divisible by 3 |
| ParallelMarching.StraddleGaps | Assets/Scripts/MarchingCubes/TSDFMarchingCubesTesting_Parallel.cs:357-358 | with straddling tables, every edge a cube's row names has corners with different values, so the job's division never has a zero denominator |
| ParallelMarching.CornerIsEdgeEnd | Assets/Scripts/MarchingCubes/TSDFMarchingCubesTesting_Parallel.cs:353-357 | corner i of the cube is the voxel at the end of an edge starting or ending at that table corner |
| ParallelMarching.JobCubeOut | Assets/Scripts/MarchingCubes/TSDFMarchingCubesTesting_Parallel.cs:306-348 | what the job emits for a cube: nothing for configurations 0 and 255, otherwise the walk of its row |
| ParallelMarching.RowMatches | Assets/Scripts/MarchingCubes/TSDFMarchingCubesTesting_Parallel.cs:323-348 | on a row of whole triangles whose edges all pass the `1e-6` guard, the job's walk emits the list-based extractor's vertices |
| ParallelMarching.JobMatchesManaged | Assets/Scripts/MarchingCubes/TSDFMarchingCubesTesting_Parallel.cs:283-349 | for such a cube the job and the list-based `MarchCube` emit the same vertices in the same order |
| ParallelMarching.CubeOf | Assets/Scripts/MarchingCubes/TSDFMarchingCubesTesting_Parallel.cs:288-292 | the cube numbered n, decoded as the job decodes it, lies in the grid |
| ParallelMarching.CubeJob | Assets/Scripts/MarchingCubes/TSDFMarchingCubesTesting_Parallel.cs:283-349 | what `Execute(n)` emits is whole triangles |
| ParallelMarching.JobOut | Assets/Scripts/MarchingCubes/TSDFMarchingCubesTesting_Parallel.cs:190-191 | the output of cubes 0 … n-1 run in number order is whole triangles, at most 15 vertices per cube |
| ParallelMarching.FlattenJob | Assets/Scripts/MarchingCubes/TSDFMarchingCubesTesting_Parallel.cs:190-191 | per-cube outputs in number order concatenate to the job's output |
| ParallelMarching.CubeJobAt | Assets/Scripts/MarchingCubes/TSDFMarchingCubesTesting_Parallel.cs:288-293 | the job numbers cube (x, y, z) `Index(x, y, z)` and emits for it what the list-based extractor emits |
| ParallelMarching.JobOutsMatch | Assets/Scripts/MarchingCubes/TSDFMarchingCubesTesting_Parallel.cs:288-293 | where every cube is managed, the job's output for number `Index(x, y, z)` is the list-based output of (x, y, z) |
| ParallelMarching.JobOutsInOrder | Assets/Scripts/MarchingCubes/TSDFMarchingCubesTesting_Parallel.cs:161 | the job's per-cube outputs in number order concatenate to the list-based output in loop order |
| ParallelMarching.JobMatchesSequential | Assets/Scripts/MarchingCubes/TSDFMarchingCubesTesting_Parallel.cs:190-191 | where every cube is managed, the job run over `cubeCount` cubes emits exactly the list-based extractor's vertices for the whole grid, in the same order |
| ParallelMarching.TripleEnd | Assets/Scripts/MarchingCubes/TSDFMarchingCubesTesting_Parallel.cs:329 | a triple holding a `-1` ends the walk there |
| ParallelMarching.TripleNext | Assets/Scripts/MarchingCubes/TSDFMarchingCubesTesting_Parallel.cs:325-329 | a triple with no `-1` names three edges of the row, each with different corner values, and the walk continues after their vertices |
| ParallelMarching.TableEntry | Assets/Scripts/MarchingCubes/TSDFMarchingCubesTesting_Parallel.cs:320-327 | flat entry `16 c + j` is entry j of row c, including the two entries past the row the last triple reads |
| ParallelMarching.Trunc | Assets/Scripts/MarchingCubes/TSDFMarchingCubesTesting_Parallel.cs:355 | `(int)` of a float truncates towards zero |
| ParallelMarching.CornerSlot | Assets/Scripts/MarchingCubes/TSDFMarchingCubesTesting_Parallel.cs:296-303 | a unit corner of a cube in the grid is a voxel of the grid whose flat slot is the cube's flat index plus the corner offset |
| ParallelMarching.MarchCubeJob.CornerRead | Assets/Scripts/MarchingCubes/TSDFMarchingCubesTesting_Parallel.cs:296-303 | the read `tsdf[base + cornerOffsets[i]]` is in range and holds the grid's corner value |
| ParallelMarching.MarchCubeJob.EdgeEndRead | Assets/Scripts/MarchingCubes/TSDFMarchingCubesTesting_Parallel.cs:355-357 | the edge-end reads `base + off` are in range and hold that corner's value and colour |
| ParallelMarching.MarchCubeJob.InterpolateEdge | Assets/Scripts/MarchingCubes/TSDFMarchingCubesTesting_Parallel.cs:351-371 | the position and colour returned are the job's vertex on the edge, with the cube recovered from `baseIdx` |
| ParallelMarching.MarchCubeJob.Classify | Assets/Scripts/MarchingCubes/TSDFMarchingCubesTesting_Parallel.cs:288-315 | the cube number is decoded to its cube and flat index, and the configuration is that of the cube's eight corner values |
| ParallelMarching.MarchCubeJob.ReadCorners | Assets/Scripts/MarchingCubes/TSDFMarchingCubesTesting_Parallel.cs:296-303 | the eight reads are the cube's corner values in table order |
| ParallelMarching.MarchCubeJob.CornersRead | Assets/Scripts/MarchingCubes/TSDFMarchingCubesTesting_Parallel.cs:296-303 | every `base + cornerOffsets[i]` lies in the flat grid and holds corner i's value |
| ParallelMarching.MarchCubeJob.Decode | Assets/Scripts/MarchingCubes/TSDFMarchingCubesTesting_Parallel.cs:288-293 | the decoded cell is the cube numbered `cubeIdx`, and `tsdfSignedDistFlat` is its flat index |
| ParallelMarching.MarchCubeJob.ConfigOf | Assets/Scripts/MarchingCubes/TSDFMarchingCubesTesting_Parallel.cs:306-314 | the eight `config |= 1 << i` tests give the configuration index of the corner values |
| ParallelMarching.MarchCubeJob.Execute | Assets/Scripts/MarchingCubes/TSDFMarchingCubesTesting_Parallel.cs:283-349 | the cube's whole triangles are written at the counter, the counter moves past them, and the entries before it are kept |
| ParallelMarching.MarchCubeJob.Run | Assets/Scripts/MarchingCubes/TSDFMarchingCubesTesting_Parallel.cs:190-191 | with the cubes run in number order, the output arrays hold, from 0 to the counter, what the job emits for every cube |
| ParallelMarching.MarchCubeJob.WroteNothing | Assets/Scripts/MarchingCubes/TSDFMarchingCubesTesting_Parallel.cs:163-164 | with the counter at 0 nothing has been written |
| ParallelMarching.MarchCubeJob.RunCube | Assets/Scripts/MarchingCubes/TSDFMarchingCubesTesting_Parallel.cs:190 | running cube i appends what the job emits for it |
| ParallelMarching.MarchCubeJob.EmitTriangles | Assets/Scripts/MarchingCubes/TSDFMarchingCubesTesting_Parallel.cs:323-348 | the triangle loop appends the walk of the row, and stops at the first triple with a `-1` |
| ParallelMarching.MarchCubeJob.EmitTriangle | Assets/Scripts/MarchingCubes/TSDFMarchingCubesTesting_Parallel.cs:325-347 | one pass of the triangle loop either ends the walk or appends three vertices and moves to the next triple |
| ParallelMarching.MarchCubeJob.ReadTriple | Assets/Scripts/MarchingCubes/TSDFMarchingCubesTesting_Parallel.cs:325-329 | the three reads either hold a `-1`, which ends the walk, or name three straddling edges whose vertices start the rest of the walk |
| ParallelMarching.MarchCubeJob.EmitThree | Assets/Scripts/MarchingCubes/TSDFMarchingCubesTesting_Parallel.cs:332-347 | the three interpolated vertices are appended in order |
| ParallelMarching.MarchCubeJob.Reserve | Assets/Scripts/MarchingCubes/TSDFMarchingCubesTesting_Parallel.cs:338-347 | the counter grows by exactly 3 and the three slots before it hold the three vertices and colours; earlier entries are kept |
| Subscription.ToInt32 | Assets/PointCloudSubscriber.cs:85 | `(int)` of the unsigned `point_step` lies in the 32-bit signed range and is congruent to it modulo 2^32 |
| Subscription.TruncDiv | Assets/PointCloudSubscriber.cs:86 | the point count is the data length divided by the step, truncated towards zero, so trailing bytes are ignored |
| Subscription.ColorOf | Assets/PointCloudSubscriber.cs:120-133 | red, green and blue are the bytes at +18, +17 and +16 over 255, each in `[0, 1]`, with alpha 1 |
| Subscription.FitsBelow | Assets/PointCloudSubscriber.cs:112-125 | once a point's reads fit in the data, every earlier point's do |
| Subscription.NoFitAfter | Assets/PointCloudSubscriber.cs:112-125 | once a point's reads do not fit, no later point's do |
| Subscription.WideRecordsFit | Assets/PointCloudSubscriber.cs:110-125 | with a step of at least 19 every point's reads fit, whatever the data length |
| Subscription.LastFitsIffWide | Assets/PointCloudSubscriber.cs:110-125 | with whole records only, the last point's reads fit exactly when the step is at least 19 |
| Subscription.PointCloudSubscriber.constructor | Assets/PointCloudSubscriber.cs:19-27 | a fresh subscriber has no message, no flag and no arrays |
| Subscription.PointCloudSubscriber.GetVertices | Assets/PointCloudSubscriber.cs:157-160 | the vertex array is null exactly when the colour array is |
| Subscription.PointCloudSubscriber.GetColors | Assets/PointCloudSubscriber.cs:162-165 | a present colour array has one colour per vertex |
| Subscription.PointCloudSubscriber.ReceiveMessage | Assets/PointCloudSubscriber.cs:63-71 | a non-null message is kept and raises the flag; a null one changes nothing |
| Subscription.PointCloudSubscriber.Update | Assets/PointCloudSubscriber.cs:44-61 | without the flag nothing changes. With it the kept message is decoded once and the flag lowered; a decoding that faults leaves the flag raised |
| Subscription.PointCloudSubscriber.ProcessMessage | Assets/PointCloudSubscriber.cs:75-136 | A step of 0 faults on the division, and a negative count faults on the allocation. Otherwise both arrays are fresh with one entry per whole record, and every point that fits is decoded. The decoding faults exactly when the last point does not fit |
| Subscription.PointCloudSubscriber.DecodePoint | Assets/PointCloudSubscriber.cs:112-133 | the reads of point i succeed exactly when its last byte is in the data, and give the vertex `(-y, z, x)` from the floats at +0, +4 and +8 and its colour |
| Subscription.PointCloudSubscriber.DecodePoints | Assets/PointCloudSubscriber.cs:110-135 | the loop decodes points in order up to the first that does not fit, leaving the rest zero, and faults exactly when the last point does not fit |

## Left out

- Geometry.LerpBetween: every `float` of the model, here and elsewhere, is a `real`. IEEE rounding, NaN and infinities are not modelled. This includes a NaN from `s1 / (s1 - s2)` in the job when the two values are equal; the job's contracts require them to differ. `Color.Lerp` and `Vector3.Lerp` clamp their parameter to `[0, 1]`; the model's interpolation does not, because the extractors clamp alpha first and the weighted fusion passes `1 / (w + 1)`, which is already in `(0, 1]`.
- ParallelMarching.MarchCubeJob.InterpolateEdge: the `(byte)` casts of `Color32` are not modelled. Colours are four real channels in both `Color` and `Color32`. The same holds for the byte conversions in `TSDFCreator.CreateTSDFGrid` (`c.r * 255f`, then `/ 255f`).
- TsdfCreation.IntegrationJob.Run: the `Execute(i)` calls run one after another in index order. The source schedules them in parallel with unsynchronised writes to shared voxels, a data race whose outcome is not modelled.
- ParallelMarching.MarchCubeJob.Run: the cubes run one after another in number order, and `Interlocked.Add` is a plain counter. Other interleavings of the job are not modelled; they place the same triangles in a different order.
- MinFusion.Sweep.Candidate: `Vector3.Distance` and `math.distance` are an uninterpreted parameter `dist`. Nothing is assumed of them, so no statement depends on the square root.
- Subscription.PointCloudSubscriber.DecodePoint: `BitConverter.ToSingle` is an uninterpreted parameter `single` applied to the four bytes.
- ParallelMarching.Trunc: the `(int)` casts are integer conversions on unbounded integers. A cast that overflows 32 bits is not modelled.
- The grid sizes and flat indices are unbounded integers. The 32-bit overflow of `sizeX * sizeY * sizeZ` or of `totalVoxels * 5 * 3` for enormous clouds is not modelled.
- The `MarchingTable` values are not part of this model. The extractors take them as a `Tables` parameter under stated assumptions:
  - `ValidTables`: unit corner offsets, rows ending in `-1` sentinels, entry 15 always `-1`.
  - `FarCorner`: one corner offset is `(1, 1, 1)`.
  - `Straddles`: every named edge joins corners on opposite sides of the threshold.
- Engine calls are left out:
  - `setMesh`, `SetMesh` and `updateMesh` (building the Unity `Mesh`, `RecalculateNormals`, the colliders);
  - `OnDrawGizmosSelected` and `renderPointCloud`;
  - the particle system;
  - `InvokeRepeating`, `Debug.Log` and the `DateTime` timings;
  - the ROS subscription in `Start`.

  The components' lists or arrays are the mesh.
- `TSDFCreator.OnDestroy` does nothing and is not modelled; `TSDFMarchingCubesTesting.Awake` only creates a Unity `Mesh`.
- NativeArray allocators and `Dispose`: a disposed array is a null reference, and nothing else of the memory management is modelled.
- MarchingTesting.TsdfMarchingCubesTesting.Refresh: after a fault the contents of the lists are not stated. The source leaves them holding the vertices of the cubes visited before the faulting read.
- OptimizedGrid.MarchingCubesOptimized.CopyTSDF: after a fault the code that would install grown grids is not reached, so only the origin update is modelled. No caller runs `copyTSDF` (its call at line 149 is commented out).
- RebuildGrid.TsdfMarchingCubesAlgorithm.CreateTSDF: the value and colour of each voxel are stated through `Fused` (the folds `MinFold` and `ColorFold`). What those folds are, the minimum and the colour of its first point, is proved separately in `MinFusion`.
- TsdfCreation.TsdfCreator.CreateTSDFGrid: the two arrays are parameters, `None` when null. A null `pointCloudSubscriber`, which the source dereferences at line 34 before its null checks on lines 36-37, is not modelled.
- RobustGrid.TsdfMesher.UpdateMeshFromPointCloud: a missing subscriber and a null vertex array are one case, `None`, since both return at line 35.
- Subscription.PointCloudSubscriber.ProcessMessage: a message whose `data` is null is not modelled. `data` is a sequence, so the source's null dereference at line 77 does not arise.
- Subscription.PointCloudSubscriber.GetVertices: the vertices are published together with the colours, since `ProcessMessage` allocates both arrays in lines 89-90. No caller ever sees a state where one array is set and the other is not, and the model does not represent one.
