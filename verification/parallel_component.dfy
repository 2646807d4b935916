/** `TSDFMarchingCubesTesting_Parallel`: the component that drives the job.
    `Start` flattens the edge and triangle tables once; every cycle asks the
    creator for a new grid, flattens it into arrays for the job, runs the job
    over every cube and copies the vertices it emitted into the mesh, each
    vertex its own index. */
module ParallelComponent {
  import opened Geometry
  import opened VoxelIndex
  import opened MarchingTable
  import opened CubeMarch
  import opened ParallelMarching
  import opened TsdfCreation
  import opened MarchingTesting

  /** The edge loop of `Start`: entries `2e` and `2e + 1` are the two ends of edge e. */
  method FillEdges(t: Tables) returns (a: array<Vec3>)
    requires |t.edges| == 12
    ensures fresh(a) && EdgeTable(a, t)
  {
    a := new Vec3[12 * 2];
    for e := 0 to 12
      invariant forall k :: 0 <= k < e ==> a[2 * k] == t.edges[k].p1 && a[2 * k + 1] == t.edges[k].p2
    {
      a[e * 2 + 0] := t.edges[e].p1;
      a[e * 2 + 1] := t.edges[e].p2;
    }
  }

  /** The row loops of `Start`: entry `16 i + j` is entry j of row i. */
  method FillTriangles(t: Tables) returns (a: array<int>)
    requires |t.triangles| == 256 && forall i :: 0 <= i < 256 ==> |t.triangles[i]| == 16
    ensures fresh(a) && TriangleTable(a, t)
  {
    a := new int[256 * 16];
    for i := 0 to 256
      invariant forall r, k :: 0 <= r < i && 0 <= k < 16 ==> a[16 * r + k] == t.triangles[r][k]
    {
      for j := 0 to 16
        invariant forall r, k :: 0 <= r < i && 0 <= k < 16 ==> a[16 * r + k] == t.triangles[r][k]
        invariant forall k :: 0 <= k < j ==> a[16 * i + k] == t.triangles[i][k]
      {
        a[i * 16 + j] := t.triangles[i][j];
      }
    }
  }

  /** The cells of the box whose flat index lies below n hold their voxels in
      the flat arrays. */
  ghost predicate FlatBelow(tsdf: array3<real>, colors: array3<Color>, flat: array<real>, flatColor: array<Color>,
                            sx: int, sy: int, sz: int, n: int)
    requires sx <= tsdf.Length0 && sy <= tsdf.Length1 && sz <= tsdf.Length2
    requires sx <= colors.Length0 && sy <= colors.Length1 && sz <= colors.Length2
    requires flat.Length == sx * sy * sz && flatColor.Length == flat.Length
    reads tsdf, colors, flat, flatColor
  {
    forall x, y, z {:trigger Slot(x, y, z, sx, sy, sz)} :: InBox(x, y, z, sx, sy, sz) && Index(x, y, z, sy, sz) < n ==>
      flat[Slot(x, y, z, sx, sy, sz)] == tsdf[x, y, z] && flatColor[Slot(x, y, z, sx, sy, sz)] == colors[x, y, z]
  }

  /** The copy loops of `MarchCubes`: voxel (x, y, z) of the creator's grids
      goes to flat entry `x * strideYZ + y * sizeZ + z`. The loops visit the
      entries in order, so before each voxel every entry below its index is
      filled. */
  method FlattenGrid(tsdf: array3<real>, colors: array3<Color>, flat: array<real>, flatColor: array<Color>, sx: int, sy: int, sz: int)
    requires 1 <= sx <= tsdf.Length0 && 1 <= sy <= tsdf.Length1 && 1 <= sz <= tsdf.Length2
    requires sx <= colors.Length0 && sy <= colors.Length1 && sz <= colors.Length2
    requires flat.Length == sx * sy * sz && flatColor.Length == flat.Length
    modifies flat, flatColor
    ensures FlatBelow(tsdf, colors, flat, flatColor, sx, sy, sz, sx * sy * sz)
  {
    var strideYZ := sy * sz;
    for x := 0 to sx
      invariant FlatBelow(tsdf, colors, flat, flatColor, sx, sy, sz, Index(x, 0, 0, sy, sz))
    {
      for y := 0 to sy
        invariant FlatBelow(tsdf, colors, flat, flatColor, sx, sy, sz, Index(x, y, 0, sy, sz))
      {
        for z := 0 to sz
          invariant FlatBelow(tsdf, colors, flat, flatColor, sx, sy, sz, Index(x, y, z, sy, sz))
        {
          var idx := x * strideYZ + y * sz + z;
          CopyVoxel(tsdf, colors, flat, flatColor, sx, sy, sz, x, y, z, idx);
        }
        assert Index(x, y, sz, sy, sz) == Index(x, y + 1, 0, sy, sz);
      }
      assert Index(x, sy, 0, sy, sz) == Index(x + 1, 0, 0, sy, sz);
    }
    assert Index(sx, 0, 0, sy, sz) == sx * sy * sz;
  }

  /** One pass of the copy loops: voxel (x, y, z), whose flat index is idx,
      is copied, and every entry up to idx is filled. */
  method CopyVoxel(tsdf: array3<real>, colors: array3<Color>, flat: array<real>, flatColor: array<Color>,
                   sx: int, sy: int, sz: int, x: int, y: int, z: int, idx: int)
    requires sx <= tsdf.Length0 && sy <= tsdf.Length1 && sz <= tsdf.Length2
    requires sx <= colors.Length0 && sy <= colors.Length1 && sz <= colors.Length2
    requires flat.Length == sx * sy * sz && flatColor.Length == flat.Length
    requires InBox(x, y, z, sx, sy, sz) && idx == Index(x, y, z, sy, sz)
    requires FlatBelow(tsdf, colors, flat, flatColor, sx, sy, sz, idx)
    modifies flat, flatColor
    ensures FlatBelow(tsdf, colors, flat, flatColor, sx, sy, sz, idx + 1)
  {
    assert idx == Slot(x, y, z, sx, sy, sz);
    var c := colors[x, y, z];
    flat[idx] := tsdf[x, y, z];
    flatColor[idx] := c;
    IndexOnly(x, y, z, sx, sy, sz);
  }

  /** The corner loop of `MarchCubes`: offset i is the flat index of table corner i. */
  method CornerOffsets(t: Tables, sy: int, sz: int, strideYZ: int) returns (a: array<int>)
    requires |t.corners| == 8 && strideYZ == sy * sz
    ensures fresh(a) && a.Length == 8
    ensures forall i :: 0 <= i < 8 ==> a[i] == Index(t.corners[i].x, t.corners[i].y, t.corners[i].z, sy, sz)
  {
    a := new int[8];
    for i := 0 to 8
      invariant forall k :: 0 <= k < i ==> a[k] == Index(t.corners[k].x, t.corners[k].y, t.corners[k].z, sy, sz)
    {
      var cx, cy, cz := t.corners[i].x, t.corners[i].y, t.corners[i].z;
      a[i] := cx * strideYZ + cy * sz + cz;
    }
  }

  /** The extraction loop of `MarchCubes`: the first vCount entries of the
      job's outputs, into arrays of their own. */
  method CopyOut(outVerts: array<Vec3>, outCols: array<Color>, vCount: int) returns (meshVerts: array<Vec3>, meshCols: array<Color>)
    requires 0 <= vCount <= outVerts.Length && vCount <= outCols.Length
    ensures fresh(meshVerts) && fresh(meshCols)
    ensures meshVerts[..] == outVerts[..vCount] && meshCols[..] == outCols[..vCount]
  {
    meshVerts := new Vec3[vCount];
    meshCols := new Color[vCount];
    for i := 0 to vCount
      invariant forall k :: 0 <= k < i ==> meshVerts[k] == outVerts[k] && meshCols[k] == outCols[k]
    {
      meshVerts[i] := outVerts[i];
      meshCols[i] := outCols[i];
    }
  }

  /** The triangle loop of `MarchCubes`: entry i is i. */
  method Indices(n: int) returns (meshTris: array<int>)
    requires n >= 0
    ensures fresh(meshTris) && meshTris[..] == Range(0, n)
  {
    meshTris := new int[n];
    for i := 0 to n
      invariant forall k :: 0 <= k < i ==> meshTris[k] == k
    {
      meshTris[i] := i;
    }
  }

  /** The copy loop and the triangle loop of `MarchCubes` over the first
      vCount entries of the job's outputs, which hold the vertices `out`:
      the three mesh arrays hold the mesh of `out`, each vertex its own index. */
  method Collect(ghost out: seq<Vertex>, outVerts: array<Vec3>, outCols: array<Color>, vCount: int)
    returns (meshVerts: array<Vec3>, meshCols: array<Color>, meshTris: array<int>)
    requires Whole(out) && vCount == |out| && vCount <= outVerts.Length && vCount <= outCols.Length
    requires outVerts[..vCount] == Positions(out) && outCols[..vCount] == Colors(out)
    ensures Mesh(meshVerts[..], meshTris[..], meshCols[..]) == Extend(EmptyMesh, out)
    ensures Lockstep(Extend(EmptyMesh, out)) && meshVerts.Length == |out| && |out| % 3 == 0
  {
    meshVerts, meshCols := CopyOut(outVerts, outCols, vCount);
    meshTris := Indices(vCount);
    MeshOf(out);
    WholeLength(out);
  }

  /** A box has no more cubes than voxels. */
  lemma CubesFit(sx: int, sy: int, sz: int)
    requires sx >= 1 && sy >= 1 && sz >= 1
    ensures 0 <= (sx - 1) * (sy - 1) * (sz - 1) <= sx * sy * sz
  {
    MulNonneg(sx - 1, sy - 1);
    MulNonneg((sx - 1) * (sy - 1), sz - 1);
    assert (sx - 1) * (sy - 1) <= sx * sy by {
      MulLeft(sx - 1, sx, sy - 1);
      MulLeft(sy - 1, sy, sx);
    }
    MulLeft(sz - 1, sz, (sx - 1) * (sy - 1));
    assert (sx - 1) * (sy - 1) * sz <= sx * sy * sz by {
      MulNonneg(sx * sy - (sx - 1) * (sy - 1), sz);
    }
  }

  /** The mesh of the vertices `out`, each vertex its own index, is `out`'s
      positions and colours with the indices `0, 1, …`, in lockstep. */
  lemma MeshOf(out: seq<Vertex>)
    ensures Extend(EmptyMesh, out) == Mesh(Positions(out), Range(0, |out|), Colors(out))
    ensures Lockstep(Extend(EmptyMesh, out))
  {
    ExtendContents(EmptyMesh, out);
    ExtendLockstep(EmptyMesh, out);
    var m := Extend(EmptyMesh, out);
    assert m.vertices == Positions(out) by { assert [] + Positions(out) == Positions(out); }
    assert m.colors == Colors(out) by { assert [] + Colors(out) == Colors(out); }
    assert m.triangles == Range(0, |out|) by { assert [] + Range(0, |out|) == Range(0, |out|); }
  }

  class TsdfMarchingCubesParallel {
    /** The creator component this one reads, and the static `MarchingTable`. */
    const creator: TsdfCreator
    const tables: Tables

    /** The flat lookup tables `Start` builds, null before it and after `OnDestroy`. */
    var edgeVertexPositions: array?<Vec3>
    var triangleTable: array?<int>

    /** The flat grids of the last cycle. */
    var tsdfFlat: array?<real>
    var tsdfColorsFlat: array?<Color>

    var vertices: seq<Vec3>
    var triangles: seq<int>
    var vertexColors: seq<Color>

    /** The job interpolates without a degeneracy guard, so its tables must
        name only straddling edges. */
    ghost predicate Valid()
      reads creator`tsdf, creator`tsdfColor, creator`radius, creator`sizeX, creator`sizeY, creator`sizeZ
    {
      creator.Valid() && ValidTables(tables) && Straddles(tables)
    }

    /** The flat lookup tables hold the lookup tables. */
    ghost predicate Started()
      reads this`edgeVertexPositions, this`triangleTable, edgeVertexPositions, triangleTable
    {
      && edgeVertexPositions != null && triangleTable != null
      && EdgeTable(edgeVertexPositions, tables) && TriangleTable(triangleTable, tables)
    }

    function Current(): Mesh
      reads this`vertices, this`triangles, this`vertexColors
    {
      Mesh(vertices, triangles, vertexColors)
    }

    /** The mesh of what the job emits over the creator's grid, cube after
        cube in number order, each vertex its own index. */
    ghost function JobMesh(): Mesh
      requires Valid() && creator.tsdf != null && Fits(creator)
      reads creator`tsdf, creator`tsdfColor, creator`radius, creator`sizeX, creator`sizeY, creator`sizeZ,
            creator`tsdfOrigin, creator.tsdf, creator.tsdfColor
    {
      var g := View(creator);
      Extend(EmptyMesh, JobOut(g, tables, CubeCount(g)))
    }

    /** The mesh holds what the job emits over the creator's grid: whole
        triangles, each vertex its own index. */
    ghost predicate Extracted()
      requires Valid() && creator.tsdf != null && Fits(creator)
      reads creator`tsdf, creator`tsdfColor, creator`radius, creator`sizeX, creator`sizeY, creator`sizeZ,
            creator`tsdfOrigin, creator.tsdf, creator.tsdfColor, this`vertices, this`triangles, this`vertexColors
    {
      Current() == JobMesh() && Lockstep(Current()) && |vertices| % 3 == 0
    }

    /** What one cycle of `MarchCubes` promises. A complete cloud gives the
        job's mesh of the grid just fused. A fault of the creator ends the
        cycle with the mesh as it was; so does a creator without a grid.
        Otherwise the copy loops fault exactly when the size fields outrun the
        creator's arrays, and the mesh is rebuilt when they do not. */
    ghost predicate Cycle(pcVertices: Option<seq<Vec3>>, pcColors: Option<seq<Color>>, fault: bool, before: Mesh)
      reads creator`tsdf, creator`tsdfColor, creator`radius, creator`sizeX, creator`sizeY, creator`sizeZ,
            creator`tsdfOrigin, creator.tsdf, creator.tsdfColor, this`vertices, this`triangles, this`vertexColors
    {
      && Valid()
      && (Complete(pcVertices, pcColors) ==>
            !fault && creator.Built(pcVertices.value, pcColors.value) && creator.tsdf != null && Fits(creator) && Extracted())
      && (Short(pcVertices, pcColors) ==> fault && Current() == before)
      && (!Short(pcVertices, pcColors) && creator.tsdf == null ==> !fault && Current() == before)
      && (!Short(pcVertices, pcColors) && creator.tsdf != null ==>
            && fault == !Fits(creator)
            && (fault ==> Current() == before)
            && (!fault ==> Extracted()))
    }

    constructor (creator: TsdfCreator, tables: Tables)
      requires creator.Valid() && ValidTables(tables) && Straddles(tables)
      ensures Valid() && this.creator == creator && this.tables == tables
      ensures edgeVertexPositions == null && triangleTable == null && Current() == EmptyMesh
    {
      this.creator := creator;
      this.tables := tables;
      edgeVertexPositions, triangleTable := null, null;
      tsdfFlat, tsdfColorsFlat := null, null;
      vertices, triangles, vertexColors := [], [], [];
    }

    /** `Start`: a new empty mesh and the two flat lookup tables. */
    method Start()
      requires Valid()
      modifies this`edgeVertexPositions, this`triangleTable, this`vertices, this`triangles, this`vertexColors
      ensures Started() && Current() == EmptyMesh
    {
      vertices, triangles, vertexColors := [], [], [];
      edgeVertexPositions := FillEdges(tables);
      triangleTable := FillTriangles(tables);
    }

    /** `OnDestroy`: both flat lookup tables are disposed. */
    method OnDestroy()
      modifies this`edgeVertexPositions, this`triangleTable
      ensures edgeVertexPositions == null && triangleTable == null
    {
      if edgeVertexPositions != null { edgeVertexPositions := null; }
      if triangleTable != null { triangleTable := null; }
    }

    /** `MarchCubes`, one cycle: the creator's `CreateTSDFGrid`, then, when the
        creator has a colour grid, the extraction through the job. */
    method MarchCubes(pcVertices: Option<seq<Vec3>>, pcColors: Option<seq<Color>>) returns (fault: bool)
      requires Valid() && Started()
      modifies creator, this`tsdfFlat, this`tsdfColorsFlat, this`vertices, this`triangles, this`vertexColors
      ensures Started() && Cycle(pcVertices, pcColors, fault, old(Current()))
    {
      fault := creator.CreateTSDFGrid(pcVertices, pcColors);
      fault := Finish(pcVertices, pcColors, fault, old(Current()));
    }

    /** The rest of a cycle once the creator has returned, with what its
        `CreateTSDFGrid` promises about the cloud. */
    method Finish(ghost pcVertices: Option<seq<Vec3>>, ghost pcColors: Option<seq<Color>>, created: bool, ghost before: Mesh)
      returns (fault: bool)
      requires Valid() && Started() && Current() == before
      requires created == Short(pcVertices, pcColors)
      requires Complete(pcVertices, pcColors) ==> creator.Built(pcVertices.value, pcColors.value)
      modifies this`tsdfFlat, this`tsdfColorsFlat, this`vertices, this`triangles, this`vertexColors
      ensures Started() && Cycle(pcVertices, pcColors, fault, before)
    {
      fault := created;
      if !created && creator.tsdfColor != null {
        fault := Extract();
      }
    }

    /** The extraction of a cycle: flat grids of `sizeX * sizeY * sizeZ`
        entries, then the copy loops, which fault on the first voxel outside
        the creator's arrays, and the rest of the extraction. */
    method Extract() returns (fault: bool)
      requires Valid() && Started() && creator.tsdf != null
      modifies this`tsdfFlat, this`tsdfColorsFlat, this`vertices, this`triangles, this`vertexColors
      ensures fault == !Fits(creator)
      ensures fault ==> Current() == old(Current())
      ensures !fault ==> Extracted()
    {
      var sizeX, sizeY, sizeZ := creator.sizeX, creator.sizeY, creator.sizeZ;
      var totalVoxels := sizeX * sizeY * sizeZ;
      MulNonneg(sizeX * sizeY, sizeZ);
      var flat := new real[totalVoxels];
      var flatColor := new Color[totalVoxels];
      tsdfFlat, tsdfColorsFlat := flat, flatColor;
      if !Fits(creator) {
        return true;
      }
      var meshVerts, meshCols, meshTris := March(flat, flatColor);
      ghost var jm := JobMesh();
      label Marched:
      vertices, vertexColors, triangles := meshVerts[..], meshCols[..], meshTris[..];
      ViewUnchanged@Marched(creator);
      fault := false;
    }

    /** The copy loops into the flat grids, the job over them, and the copy
        of its output into the three mesh arrays. */
    method March(flat: array<real>, flatColor: array<Color>) returns (meshVerts: array<Vec3>, meshCols: array<Color>, meshTris: array<int>)
      requires Valid() && Started() && creator.tsdf != null && Fits(creator)
      requires flat.Length == creator.sizeX * creator.sizeY * creator.sizeZ && flatColor.Length == flat.Length
      modifies flat, flatColor
      ensures Mesh(meshVerts[..], meshTris[..], meshCols[..]) == JobMesh()
      ensures Lockstep(JobMesh()) && |meshVerts[..]| % 3 == 0
    {
      FlattenGrid(creator.tsdf, creator.tsdfColor, flat, flatColor, creator.sizeX, creator.sizeY, creator.sizeZ);
      ghost var g := View(creator);
      label Viewed:
      var vCount, outVerts, outCols := RunJob(g, flat, flatColor);
      meshVerts, meshCols, meshTris := Collect(JobOut(g, tables, CubeCount(g)), outVerts, outCols, vCount);
      ViewUnchanged@Viewed(creator);
    }
    /** The job over flat grids that mirror g: the corner offsets, the output
        arrays and the counter, and the job run over every cube. The counter
        ends at the number of vertices emitted, which the arrays hold. */
    method RunJob(ghost g: Grid, flat: array<real>, flatColor: array<Color>)
      returns (vCount: int, outVerts: array<Vec3>, outCols: array<Color>)
      requires Valid() && Started() && creator.tsdf != null && Fits(creator) && g == View(creator)
      requires flat.Length == g.sx * g.sy * g.sz && flatColor.Length == flat.Length
      requires FlatBelow(creator.tsdf, creator.tsdfColor, flat, flatColor, g.sx, g.sy, g.sz, g.sx * g.sy * g.sz)
      ensures var out := JobOut(g, tables, CubeCount(g));
        && vCount == |out| && vCount <= outVerts.Length && vCount <= outCols.Length
        && outVerts[..vCount] == Positions(out) && outCols[..vCount] == Colors(out)
    {
      var sizeX, sizeY, sizeZ := creator.sizeX, creator.sizeY, creator.sizeZ;
      var strideYZ := sizeY * sizeZ;
      var totalVoxels := sizeX * sizeY * sizeZ;
      var cornerOffsets := CornerOffsets(tables, sizeY, sizeZ, strideYZ);
      CubesFit(sizeX, sizeY, sizeZ);
      outVerts := new Vec3[totalVoxels * 5 * 3];
      outCols := new Color[totalVoxels * 5 * 3];
      var cubeCount := (sizeX - 1) * (sizeY - 1) * (sizeZ - 1);
      var counter := new int[1];
      counter[0] := 0;
      var job := MarchCubeJob(flat, flatColor, cornerOffsets, edgeVertexPositions, triangleTable,
                              sizeX, sizeY, sizeZ, strideYZ, creator.tsdfThreshold, creator.resolution, creator.tsdfOrigin,
                              outVerts, outCols, counter);
      assert job.Mirrors(g, tables);
      ghost var outs := job.Run(g, tables, cubeCount);
      FlattenJob(g, tables, outs);
      vCount := counter[0];
    }
  }
}
