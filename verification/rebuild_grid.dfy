/** `TSDF_Marching_Cubes_Algorithm`: every cycle rebuilds a grid around the
    bounding box of the current point cloud, fuses the points into it with the
    min-replace rule and extracts a coloured mesh from it. */
module RebuildGrid {
  import opened Geometry
  import opened MarchingTable
  import opened MinFusion
  import opened VoxelSweep
  import opened CubeMarch

  class TsdfMarchingCubesAlgorithm {
    /** Editor settings and the engine services the component uses: `dist` is
        `Vector3.Distance`, `tables` the static `MarchingTable`. */
    const resolution: real
    const tsdfThreshold: real
    const truncation: real
    const dist: (Vec3, Vec3) -> real
    const tables: Tables

    var tsdf: array3<real>
    var colorGrid: array3<Color>
    var origin: Vec3
    var sizeX: int
    var sizeY: int
    var sizeZ: int
    var vertices: seq<Vec3>
    var triangles: seq<int>
    var vertexColors: seq<Color>

    /** The arrays have the shape the size fields record. */
    ghost predicate Valid()
      reads this`tsdf, this`colorGrid, this`sizeX, this`sizeY, this`sizeZ
    {
      && resolution > 0.0 && truncation >= 0.0 && ValidTables(tables)
      && tsdf.Length0 == sizeX && tsdf.Length1 == sizeY && tsdf.Length2 == sizeZ
      && colorGrid.Length0 == sizeX && colorGrid.Length1 == sizeY && colorGrid.Length2 == sizeZ
    }

    /** The sweep radius `CeilToInt(truncation / resolution)`. */
    function Radius(): (r: int)
      ensures r >= 0
    {
      if resolution > 0.0 && truncation >= 0.0 then
        assert truncation / resolution >= 0.0;
        CeilToInt(truncation / resolution)
      else 0
    }

    /** The integration pass over the current grid. */
    function Pass(): (sw: Sweep)
      reads this`origin, this`sizeX, this`sizeY, this`sizeZ
      ensures sw.origin == origin && sw.resolution == resolution && sw.truncation == truncation
      ensures sw.sx == sizeX && sw.sy == sizeY && sw.sz == sizeZ && sw.dist == dist
      ensures sw.radius == Radius()
    {
      Sweep(origin, resolution, truncation, Radius(), sizeX, sizeY, sizeZ, dist)
    }

    /** The mesh the three lists hold. */
    function Current(): Mesh
      reads this`vertices, this`triangles, this`vertexColors
    {
      Mesh(vertices, triangles, vertexColors)
    }

    /** A component before its first cycle: no grid and no mesh. */
    constructor (resolution: real, tsdfThreshold: real, truncation: real, dist: (Vec3, Vec3) -> real, tables: Tables)
      requires resolution > 0.0 && truncation >= 0.0 && ValidTables(tables)
      ensures Valid()
      ensures this.resolution == resolution && this.tsdfThreshold == tsdfThreshold && this.truncation == truncation
      ensures this.dist == dist && this.tables == tables
      ensures sizeX == 0 && sizeY == 0 && sizeZ == 0 && Current() == EmptyMesh
    {
      this.resolution := resolution;
      this.tsdfThreshold := tsdfThreshold;
      this.truncation := truncation;
      this.dist := dist;
      this.tables := tables;
      tsdf := new real[0, 0, 0];
      colorGrid := new Color[0, 0, 0];
      origin := Vec3(0.0, 0.0, 0.0);
      sizeX, sizeY, sizeZ := 0, 0, 0;
      vertices, triangles, vertexColors := [], [], [];
    }

    /** The contents of the grid as the extraction reads them. */
    function Contents(): (g: Grid)
      requires Valid() && sizeX >= 1 && sizeY >= 1 && sizeZ >= 1
      reads this`tsdf, this`colorGrid, this`origin, this`sizeX, this`sizeY, this`sizeZ, tsdf, colorGrid
      ensures g.Valid()
    {
      Capture(tsdf, colorGrid, sizeX, sizeY, sizeZ, origin, resolution, tsdfThreshold)
    }

    /** The lists hold the mesh extracted from the current grid, each vertex its own index. */
    ghost predicate Extracted()
      requires Valid() && sizeX >= 1 && sizeY >= 1 && sizeZ >= 1
      reads this`tsdf, this`colorGrid, this`origin, this`sizeX, this`sizeY, this`sizeZ, this`vertices, this`triangles, this`vertexColors, tsdf, colorGrid
    {
      Current() == Extend(EmptyMesh, AllOut(Contents(), tables)) && Lockstep(Current())
    }

    /** `CreateTSDF`, one cycle. A null array returns at once. An empty cloud
        faults on `pc_vertices[0]` before anything changes. Otherwise the grid is
        rebuilt around the bounding box, reset to `truncation`, and the points are
        fused in order; a colour array shorter than the vertex array faults on the
        first point without a colour, leaving the grid rebuilt and partly fused
        and the mesh as it was. A complete pass ends with the extraction. */
    method CreateTSDF(pcVertices: Option<seq<Vec3>>, pcColors: Option<seq<Color>>) returns (fault: bool)
      requires Valid()
      modifies this
      ensures Valid()
      ensures (pcVertices.None? || pcColors.None?) ==> !fault && unchanged(this)
      ensures pcVertices.Some? && pcColors.Some? && |pcVertices.value| == 0 ==> fault && unchanged(this)
      ensures pcVertices.Some? && pcColors.Some? && |pcVertices.value| > 0 ==>
        && fault == (|pcColors.value| < |pcVertices.value|)
        && Frames(Pass(), pcVertices.value)
        && Fused(Pass(), tsdf, colorGrid, pcVertices.value, pcColors.value,
                 if fault then |pcColors.value| else |pcVertices.value|)
        && (fault ==> Current() == old(Current()))
        && (!fault ==> Extracted())
    {
      if pcVertices.None? || pcColors.None? {
        return false;
      }
      var vs, cs := pcVertices.value, pcColors.value;
      if |vs| == 0 {
        return true;
      }
      Rebuild(vs, cs);
      fault := Integrate(vs, cs);
    }

    /** The second half of a cycle on a rebuilt grid: the points are fused in
        order until the colours run out, and a complete pass ends with the
        extraction. */
    method Integrate(vs: seq<Vec3>, cs: seq<Color>) returns (fault: bool)
      requires Valid() && Pass().Valid() && Fused(Pass(), tsdf, colorGrid, vs, cs, 0)
      modifies this`vertices, this`triangles, this`vertexColors, tsdf, colorGrid
      ensures fault == (|cs| < |vs|)
      ensures Fused(Pass(), tsdf, colorGrid, vs, cs, if fault then |cs| else |vs|)
      ensures fault ==> Current() == old(Current())
      ensures !fault ==> Extracted()
    {
      var n := FuseAll(tsdf, colorGrid, Pass(), vs, cs);
      if n < |vs| {
        return true;
      }
      MarchCubes();
      return false;
    }

    /** The first half of a cycle on a non-empty cloud: the bounding box, the
        origin and sizes, fresh arrays, and the reset to `truncation` (colours
        start `Clear`). */
    method Rebuild(vs: seq<Vec3>, cs: seq<Color>)
      requires Valid() && |vs| > 0
      modifies this`origin, this`sizeX, this`sizeY, this`sizeZ, this`tsdf, this`colorGrid
      ensures Valid() && Frames(Pass(), vs) && fresh(tsdf) && fresh(colorGrid)
      ensures Fused(Pass(), tsdf, colorGrid, vs, cs, 0)
    {
      var sw := FrameBatch(vs, resolution, truncation, Radius(), dist);
      var t, cg := FreshGrid(sw, vs, cs);
      origin, sizeX, sizeY, sizeZ, tsdf, colorGrid := sw.origin, sw.sx, sw.sy, sw.sz, t, cg;
      assert Pass() == sw;
    }

    /** `MarchCubes`: clears the lists and extracts the mesh of the current grid. */
    method MarchCubes()
      requires Valid() && sizeX >= 1 && sizeY >= 1 && sizeZ >= 1
      modifies this`vertices, this`triangles, this`vertexColors
      ensures Extracted()
    {
      ClearMesh();
      var g := Contents();
      var m := CubeMarch.MarchCubes(g, tables, EmptyMesh);
      ExtendLockstep(EmptyMesh, AllOut(g, tables));
      vertices, triangles, vertexColors := m.vertices, m.triangles, m.colors;
    }

    /** `clearMesh`: empties the three lists. */
    method ClearMesh()
      modifies this`vertices, this`triangles, this`vertexColors
      ensures Current() == EmptyMesh
    {
      triangles, vertices, vertexColors := [], [], [];
    }
  }
}
