/** `TSDFMesher`, the two-pass mesher: every cycle rebuilds a grid around the
    bounding box of the cloud, takes in a first pass the minimum of the
    candidates over the 27 voxels around each point, runs a second pass that is
    meant to record the colour of the closest surface, and extracts a mesh.

    The second pass recomputes the very candidates whose minimum the first pass
    stored, so its strict `<` test never succeeds: it changes nothing, the
    colour grid keeps the zero colour of a fresh array, and every vertex of the
    extracted mesh has that colour. */
module RobustGrid {
  import opened Geometry
  import opened MarchingTable
  import opened MinFusion
  import opened VoxelSweep
  import opened CubeMarch
  import opened VoxelIndex

  /** Both passes sweep a fixed neighbourhood: offsets -1 … 1 on every axis. */
  const Radius: int := 1

  /** The value grid has the grid shape of the sweep. */
  predicate ValueShaped(sw: Sweep, tsdf: array3<real>)
  {
    tsdf.Length0 == sw.sx && tsdf.Length1 == sw.sy && tsdf.Length2 == sw.sz
  }

  /** Every voxel holds the minimum over the first n points: `MinFold`. */
  ghost predicate Minimal(sw: Sweep, tsdf: array3<real>, ps: seq<Vec3>, n: nat)
    requires sw.Valid() && ValueShaped(sw, tsdf) && n <= |ps|
    reads tsdf
  {
    forall x, y, z :: 0 <= x < sw.sx && 0 <= y < sw.sy && 0 <= z < sw.sz ==>
      tsdf[x, y, z] == MinFold(sw, ps, n, Vec3i(x, y, z))
  }

  /** Every voxel of the colour grid holds the zero colour. */
  ghost predicate Colorless(sw: Sweep, colors: array3<Color>)
    requires colors.Length0 == sw.sx && colors.Length1 == sw.sy && colors.Length2 == sw.sz
    reads colors
  {
    forall x, y, z :: 0 <= x < sw.sx && 0 <= y < sw.sy && 0 <= z < sw.sz ==> colors[x, y, z] == Clear
  }

  /** The innermost loop of the first pass: offsets (dx, dy, -radius) … (dx, dy, radius)
      from p's home voxel, each voxel inside the grid taking the smaller of its
      value and p's candidate. */
  method MinSweepColumn(tsdf: array3<real>, sw: Sweep, p: Vec3, dx: int, dy: int)
    requires sw.Valid() && ValueShaped(sw, tsdf)
    requires -sw.radius <= dx <= sw.radius && -sw.radius <= dy <= sw.radius
    modifies tsdf
    ensures forall x, y, z :: 0 <= x < sw.sx && 0 <= y < sw.sy && 0 <= z < sw.sz ==>
      tsdf[x, y, z] == (if x == sw.Home(p).x + dx && y == sw.Home(p).y + dy then sw.Relax(p, Vec3i(x, y, z), old(tsdf[x, y, z])) else old(tsdf[x, y, z]))
  {
    var r := sw.radius;
    var h := sw.Home(p);
    for dz := -r to r + 1
      invariant forall x, y, z :: 0 <= x < sw.sx && 0 <= y < sw.sy && 0 <= z < sw.sz ==>
        tsdf[x, y, z] == (if x == h.x + dx && y == h.y + dy && z - h.z < dz then sw.Relax(p, Vec3i(x, y, z), old(tsdf[x, y, z])) else old(tsdf[x, y, z]))
    {
      var x, y, z := h.x + dx, h.y + dy, h.z + dz;
      if x < 0 || y < 0 || z < 0 || x >= sw.sx || y >= sw.sy || z >= sw.sz {
        continue;
      }
      var voxelPos := Add(sw.origin, Scale(Vec3(x as real, y as real, z as real), sw.resolution));
      var d := sw.dist(voxelPos, p);
      tsdf[x, y, z] := Min(tsdf[x, y, z], Clamp(d - sw.resolution, -sw.truncation, sw.truncation));
    }
  }

  /** The sweep of one point in the first pass: every voxel p touches takes
      `Mathf.Min` of its value and p's candidate, which is what `Relax` keeps. */
  method MinSweepPoint(tsdf: array3<real>, sw: Sweep, p: Vec3)
    requires sw.Valid() && ValueShaped(sw, tsdf)
    modifies tsdf
    ensures forall x, y, z :: 0 <= x < sw.sx && 0 <= y < sw.sy && 0 <= z < sw.sz ==>
      tsdf[x, y, z] == sw.Relax(p, Vec3i(x, y, z), old(tsdf[x, y, z]))
  {
    var r := sw.radius;
    for dx := -r to r + 1
      invariant forall x, y, z :: 0 <= x < sw.sx && 0 <= y < sw.sy && 0 <= z < sw.sz ==>
        tsdf[x, y, z] == (if sw.SweptBefore(p, Vec3i(x, y, z), dx, -r, -r) then sw.Relax(p, Vec3i(x, y, z), old(tsdf[x, y, z])) else old(tsdf[x, y, z]))
    {
      for dy := -r to r + 1
        invariant forall x, y, z :: 0 <= x < sw.sx && 0 <= y < sw.sy && 0 <= z < sw.sz ==>
          tsdf[x, y, z] == (if sw.SweptBefore(p, Vec3i(x, y, z), dx, dy, -r) then sw.Relax(p, Vec3i(x, y, z), old(tsdf[x, y, z])) else old(tsdf[x, y, z]))
      {
        MinSweepColumn(tsdf, sw, p, dx, dy);
      }
    }
  }

  /** The first pass: from a grid reset to `truncation`, every voxel ends at the
      minimum of `truncation` and the candidates of the points touching it. */
  method FirstPass(tsdf: array3<real>, sw: Sweep, ps: seq<Vec3>)
    requires sw.Valid() && ValueShaped(sw, tsdf) && Minimal(sw, tsdf, ps, 0)
    modifies tsdf
    ensures Minimal(sw, tsdf, ps, |ps|)
  {
    for i := 0 to |ps|
      invariant Minimal(sw, tsdf, ps, i)
    {
      MinSweepPoint(tsdf, sw, ps[i]);
    }
  }

  /** Once a voxel holds the minimum over all points, no point's candidate is
      strictly below it: the test of the second pass fails for every point and
      voxel, so neither the value nor the colour changes. */
  lemma NoStrictImprovement(sw: Sweep, ps: seq<Vec3>, i: nat, c: Vec3i, col: Color, prevColor: Color)
    requires sw.Valid() && i < |ps|
    ensures sw.Relax(ps[i], c, MinFold(sw, ps, |ps|, c)) == MinFold(sw, ps, |ps|, c)
    ensures sw.Recolor(ps[i], col, c, MinFold(sw, ps, |ps|, c), prevColor) == prevColor
  {
    if sw.Touches(ps[i], c) {
      MinFoldBelow(sw, ps, |ps|, c, i);
    }
  }

  /** The second pass: each point sweeps again with its colour `colors[i]`. It
      faults on the first point without a colour (a null colour array faults
      on the first point); on every point it does reach it changes nothing, so
      the grid keeps the minima and the colour grid stays `Clear`. */
  method SecondPass(tsdf: array3<real>, colorGrid: array3<Color>, sw: Sweep, ps: seq<Vec3>, colors: Option<seq<Color>>)
    returns (fault: bool)
    requires sw.Valid() && Shaped(sw, tsdf, colorGrid)
    requires Minimal(sw, tsdf, ps, |ps|) && Colorless(sw, colorGrid)
    modifies tsdf, colorGrid
    ensures fault == (|ps| > 0 && (colors.None? || |colors.value| < |ps|))
    ensures Minimal(sw, tsdf, ps, |ps|) && Colorless(sw, colorGrid)
  {
    for i := 0 to |ps|
      invariant i > 0 ==> colors.Some? && i <= |colors.value|
      invariant Minimal(sw, tsdf, ps, |ps|) && Colorless(sw, colorGrid)
    {
      if colors.None? || i >= |colors.value| {
        return true;
      }
      SweepPoint(tsdf, colorGrid, sw, ps[i], colors.value[i]);
      forall x, y, z | 0 <= x < sw.sx && 0 <= y < sw.sy && 0 <= z < sw.sz
        ensures tsdf[x, y, z] == MinFold(sw, ps, |ps|, Vec3i(x, y, z)) && colorGrid[x, y, z] == Clear
      {
        NoStrictImprovement(sw, ps, i, Vec3i(x, y, z), colors.value[i], Clear);
      }
    }
    return false;
  }

  /** Every vertex of `out` has the zero colour. */
  ghost predicate Uncoloured(out: seq<Vertex>)
  {
    forall i :: 0 <= i < |out| ==> out[i].color == Clear
  }

  /** Every voxel of the captured colour grid holds the zero colour. */
  ghost predicate ClearGrid(s: Grid)
    requires s.Valid()
  {
    forall x, y, z :: 0 <= x < s.sx && 0 <= y < s.sy && 0 <= z < s.sz ==> s.colors[x][y][z] == Clear
  }

  /** Two uncoloured runs of vertices make an uncoloured run. */
  lemma UncolouredConcat(a: seq<Vertex>, b: seq<Vertex>)
    requires Uncoloured(a) && Uncoloured(b)
    ensures Uncoloured(a + b)
  {
    forall i | 0 <= i < |a + b|
      ensures (a + b)[i].color == Clear
    {
      if i >= |a| {
        assert (a + b)[i] == b[i - |a|];
      }
    }
  }

  /** Interpolating between two zero colours gives the zero colour. */
  lemma EdgeVertexUncoloured(s: Grid, t: Tables, pos: Vec3, edge: int)
    requires s.Valid() && ClearGrid(s) && |t.edges| == 12 && 0 <= edge < 12
    ensures Uncoloured(OptSeq(EdgeVertex(s, t, pos, edge)))
  {
    var c1 := CornerOf(pos, t.edges[edge].p1);
    var c2 := CornerOf(pos, t.edges[edge].p2);
    if s.InBounds(c1) && s.InBounds(c2) {
      assert s.ColorAt(c1) == Clear && s.ColorAt(c2) == Clear;
    }
  }

  /** Every entry of a row of a colourless grid emits an uncoloured vertex. */
  lemma {:induction false} EmittedUncoloured(s: Grid, t: Tables, pos: Vec3, row: seq<int>, n: nat)
    requires s.Valid() && ClearGrid(s) && |t.edges| == 12 && |row| == 16 && n <= 15
    requires forall j :: 0 <= j < n ==> 0 <= row[j] < 12
    ensures Uncoloured(Emitted(s, t, pos, row, n))
  {
    if n > 0 {
      EmittedUncoloured(s, t, pos, row, n - 1);
      EdgeVertexUncoloured(s, t, pos, row[n - 1]);
      UncolouredConcat(Emitted(s, t, pos, row, n - 1), OptSeq(EdgeVertex(s, t, pos, row[n - 1])));
    }
  }

  /** A cube of a colourless grid emits uncoloured vertices. */
  lemma CubeOutUncoloured(s: Grid, t: Tables, x: int, y: int, z: int)
    requires s.Valid() && ClearGrid(s) && ValidTables(t) && CubeIn(s, x, y, z)
    ensures Uncoloured(CubeOut(s, t, x, y, z))
  {
    var pos := Vec3(x as real, y as real, z as real);
    var config := Config(CubeAt(s, t, x, y, z), s.threshold);
    if config != 0 && config != 255 {
      var row := t.triangles[config];
      RowEntries(row);
      EmittedUncoloured(s, t, pos, row, Stop(row, 0));
    }
  }

  /** The cubes visited before (x, y, z) emit uncoloured vertices. */
  lemma {:induction false} BeforeUncoloured(s: Grid, t: Tables, x: int, y: int, z: int)
    requires s.Valid() && ClearGrid(s) && ValidTables(t) && OnWalk(x, y, z, s.sx - 1, s.sy - 1, s.sz - 1)
    ensures Uncoloured(Before(s, t, x, y, z))
    decreases x, y, z
  {
    var g := CubeFn(s, t);
    if z > 0 {
      BeforeUncoloured(s, t, x, y, z - 1);
      if CubeIn(s, x, y, z - 1) {
        CubeOutUncoloured(s, t, x, y, z - 1);
      }
      assert Uncoloured(g(x, y, z - 1));
      UncolouredConcat(Before(s, t, x, y, z - 1), g(x, y, z - 1));
    } else if y > 0 {
      BeforeUncoloured(s, t, x, y - 1, s.sz - 1);
    } else if x > 0 {
      BeforeUncoloured(s, t, x - 1, s.sy - 1, 0);
    }
  }

  /** A colourless grid yields a mesh whose vertex colours are all zero. */
  lemma ClearMeshColors(s: Grid, t: Tables)
    requires s.Valid() && ClearGrid(s) && ValidTables(t)
    ensures forall k :: 0 <= k < |Extend(EmptyMesh, AllOut(s, t)).colors| ==> Extend(EmptyMesh, AllOut(s, t)).colors[k] == Clear
  {
    BeforeUncoloured(s, t, s.sx - 1, 0, 0);
    ExtendContents(EmptyMesh, AllOut(s, t));
  }

  class TsdfMesher {
    /** Editor settings and the engine services the component uses: `dist` is
        `Vector3.Distance`, `tables` the static `MarchingTable`. */
    const resolution: real
    const tsdfThreshold: real
    const truncation: real
    const dist: (Vec3, Vec3) -> real
    const tables: Tables

    var tsdf: array3<real>
    var colorGrid: array3<Color>
    var minBounds: Vec3
    var sizeX: int
    var sizeY: int
    var sizeZ: int
    var vertices: seq<Vec3>
    var triangles: seq<int>
    var vertexColors: seq<Color>

    /** The arrays have the shape the size fields record. */
    ghost predicate Valid()
      reads this`tsdf, this`colorGrid, this`sizeX, this`sizeY, this`sizeZ
    {
      && resolution > 0.0 && truncation >= 0.0 && ValidTables(tables)
      && tsdf.Length0 == sizeX && tsdf.Length1 == sizeY && tsdf.Length2 == sizeZ
      && colorGrid.Length0 == sizeX && colorGrid.Length1 == sizeY && colorGrid.Length2 == sizeZ
    }

    /** The sweep of both passes over the current grid: radius 1. */
    function Pass(): (sw: Sweep)
      reads this`minBounds, this`sizeX, this`sizeY, this`sizeZ
      ensures sw.origin == minBounds && sw.resolution == resolution && sw.truncation == truncation
      ensures sw.sx == sizeX && sw.sy == sizeY && sw.sz == sizeZ && sw.dist == dist
      ensures sw.radius == Radius
    {
      Sweep(minBounds, resolution, truncation, Radius, sizeX, sizeY, sizeZ, dist)
    }

    /** The mesh the three lists hold. */
    function Current(): Mesh
      reads this`vertices, this`triangles, this`vertexColors
    {
      Mesh(vertices, triangles, vertexColors)
    }

    /** A component before its first cycle: no grid and no mesh. */
    constructor (resolution: real, tsdfThreshold: real, truncation: real, dist: (Vec3, Vec3) -> real, tables: Tables)
      requires resolution > 0.0 && truncation >= 0.0 && ValidTables(tables)
      ensures Valid()
      ensures this.resolution == resolution && this.tsdfThreshold == tsdfThreshold && this.truncation == truncation
      ensures this.dist == dist && this.tables == tables
      ensures sizeX == 0 && sizeY == 0 && sizeZ == 0 && Current() == EmptyMesh
    {
      this.resolution := resolution;
      this.tsdfThreshold := tsdfThreshold;
      this.truncation := truncation;
      this.dist := dist;
      this.tables := tables;
      tsdf := new real[0, 0, 0];
      colorGrid := new Color[0, 0, 0];
      minBounds := Vec3(0.0, 0.0, 0.0);
      sizeX, sizeY, sizeZ := 0, 0, 0;
      vertices, triangles, vertexColors := [], [], [];
    }

    /** The contents of the grid as the extraction reads them. */
    function Contents(): (g: Grid)
      requires Valid() && sizeX >= 1 && sizeY >= 1 && sizeZ >= 1
      reads this`tsdf, this`colorGrid, this`minBounds, this`sizeX, this`sizeY, this`sizeZ, tsdf, colorGrid
      ensures g.Valid()
    {
      Capture(tsdf, colorGrid, sizeX, sizeY, sizeZ, minBounds, resolution, tsdfThreshold)
    }

    /** The lists hold the mesh extracted from the current grid, each vertex its own index. */
    ghost predicate Extracted()
      requires Valid() && sizeX >= 1 && sizeY >= 1 && sizeZ >= 1
      reads this`tsdf, this`colorGrid, this`minBounds, this`sizeX, this`sizeY, this`sizeZ, this`vertices, this`triangles, this`vertexColors, tsdf, colorGrid
    {
      Current() == Extend(EmptyMesh, AllOut(Contents(), tables)) && Lockstep(Current())
    }

    /** `UpdateMeshFromPointCloud`, one cycle. `points` is None when the
        subscriber or its vertex array is missing, `colors` None when its colour
        array is null; both return at once, as does an empty cloud. Otherwise
        the grid is rebuilt around the bounding box and reset to `truncation`,
        the first pass stores every voxel's minimum, and the second pass faults
        on the first point without a colour, leaving the mesh as it was. A
        complete second pass ends with the extraction. Either way the grid holds
        the minima and no colour: every extracted vertex has the zero colour. */
    method UpdateMeshFromPointCloud(points: Option<seq<Vec3>>, colors: Option<seq<Color>>) returns (fault: bool)
      requires Valid()
      modifies this
      ensures Valid()
      ensures points.None? || |points.value| == 0 ==> !fault && unchanged(this)
      ensures points.Some? && |points.value| > 0 ==>
        && Frames(Pass(), points.value)
        && Minimal(Pass(), tsdf, points.value, |points.value|)
        && Colorless(Pass(), colorGrid)
        && fault == (colors.None? || |colors.value| < |points.value|)
        && (fault ==> Current() == old(Current()))
        && (!fault ==> Extracted() && forall k :: 0 <= k < |vertexColors| ==> vertexColors[k] == Clear)
    {
      if points.None? {
        return false;
      }
      var ps := points.value;
      if |ps| == 0 {
        return false;
      }
      Rebuild(ps);
      fault := Integrate(ps, colors);
    }

    /** The two passes over the rebuilt grid and, after a complete second pass,
        the extraction. */
    method Integrate(ps: seq<Vec3>, colors: Option<seq<Color>>) returns (fault: bool)
      requires Valid() && |ps| > 0 && Pass().Valid()
      requires Minimal(Pass(), tsdf, ps, 0) && Colorless(Pass(), colorGrid)
      modifies this`vertices, this`triangles, this`vertexColors, tsdf, colorGrid
      ensures Minimal(Pass(), tsdf, ps, |ps|) && Colorless(Pass(), colorGrid)
      ensures fault == (colors.None? || |colors.value| < |ps|)
      ensures fault ==> Current() == old(Current())
      ensures !fault ==> Extracted() && forall k :: 0 <= k < |vertexColors| ==> vertexColors[k] == Clear
    {
      var sw := Pass();
      FirstPass(tsdf, sw, ps);
      fault := SecondPass(tsdf, colorGrid, sw, ps, colors);
      if fault {
        return;
      }
      ExtractColorless();
    }

    /** `MarchCubes` on a colourless grid: every vertex it emits has the zero colour. */
    method ExtractColorless()
      requires Valid() && Pass().Valid() && Colorless(Pass(), colorGrid)
      modifies this`vertices, this`triangles, this`vertexColors
      ensures Extracted() && forall k :: 0 <= k < |vertexColors| ==> vertexColors[k] == Clear
    {
      MarchCubes();
      var g := Contents();
      assert ClearGrid(g);
      ClearMeshColors(g, tables);
    }

    /** Bounds, origin and sizes of a non-empty cloud, a fresh value grid reset
        to `truncation` and a fresh colour grid of zero colours. */
    method Rebuild(ps: seq<Vec3>)
      requires Valid() && |ps| > 0
      modifies this`minBounds, this`sizeX, this`sizeY, this`sizeZ, this`tsdf, this`colorGrid
      ensures Valid() && Frames(Pass(), ps) && fresh(tsdf) && fresh(colorGrid)
      ensures Minimal(Pass(), tsdf, ps, 0) && Colorless(Pass(), colorGrid)
    {
      var lo, hi := Bounds(ps);
      var sx, sy, sz := GridDim(hi.x - lo.x, resolution), GridDim(hi.y - lo.y, resolution), GridDim(hi.z - lo.z, resolution);
      var t, cg := Allocate(sx, sy, sz, truncation);
      minBounds, sizeX, sizeY, sizeZ := lo, sx, sy, sz;
      tsdf, colorGrid := t, cg;
      var sw := Pass();
      assert Spans(sw, hi);
      FramesBox(sw, ps, lo, hi);
    }

    /** `MarchCubes`: clears the lists and extracts the mesh of the current grid. */
    method MarchCubes()
      requires Valid() && sizeX >= 1 && sizeY >= 1 && sizeZ >= 1
      modifies this`vertices, this`triangles, this`vertexColors
      ensures Extracted()
    {
      ClearMesh();
      var g := Contents();
      var m := CubeMarch.MarchCubes(g, tables, EmptyMesh);
      ExtendLockstep(EmptyMesh, AllOut(g, tables));
      vertices, triangles, vertexColors := m.vertices, m.triangles, m.colors;
    }

    /** Empties the three lists, as the start of `MarchCubes` does. */
    method ClearMesh()
      modifies this`vertices, this`triangles, this`vertexColors
      ensures Current() == EmptyMesh
    {
      triangles, vertices, vertexColors := [], [], [];
    }
  }
}
