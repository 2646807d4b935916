/** `TSDFMarchingCubesTesting`: every cycle asks the creator for a new grid and
    extracts the mesh from the creator's managed arrays, over the creator's
    current size fields. */
module MarchingTesting {
  import opened Geometry
  import opened MarchingTable
  import opened CubeMarch
  import opened VoxelSweep
  import opened TsdfCreation

  class TsdfMarchingCubesTesting {
    /** The creator component this one reads, and the static `MarchingTable`. */
    const creator: TsdfCreator
    const tables: Tables

    var vertices: seq<Vec3>
    var triangles: seq<int>
    var vertexColors: seq<Color>

    ghost predicate Valid()
      reads creator`tsdf, creator`tsdfColor, creator`radius, creator`sizeX, creator`sizeY, creator`sizeZ
    {
      creator.Valid() && ValidTables(tables) && FarCorner(tables)
    }

    function Current(): Mesh
      reads this`vertices, this`triangles, this`vertexColors
    {
      Mesh(vertices, triangles, vertexColors)
    }

    /** The lists hold the mesh extracted from the creator's grid. */
    ghost predicate Extracted()
      requires Valid() && creator.tsdf != null && Fits(creator)
      reads creator`tsdf, creator`tsdfColor, creator`radius, creator`sizeX, creator`sizeY, creator`sizeZ,
            creator`tsdfOrigin, creator.tsdf, creator.tsdfColor, this`vertices, this`triangles, this`vertexColors
    {
      Current() == Extend(EmptyMesh, AllOut(View(creator), tables)) && Lockstep(Current())
    }

    constructor (creator: TsdfCreator, tables: Tables)
      requires creator.Valid() && ValidTables(tables) && FarCorner(tables)
      ensures Valid() && this.creator == creator && this.tables == tables && Current() == EmptyMesh
    {
      this.creator := creator;
      this.tables := tables;
      vertices, triangles, vertexColors := [], [], [];
    }

    /** After a cycle that reached the creator's grid: `Fits` gives the mesh
        of that grid; otherwise the cube loops fault exactly when one of the
        corner reads falls outside the arrays, and leave the lists empty when
        none does. */
    ghost predicate Refreshed(fault: bool)
      requires Valid() && creator.tsdf != null
      reads creator`tsdf, creator`tsdfColor, creator`radius, creator`sizeX, creator`sizeY, creator`sizeZ,
            creator`tsdfOrigin, creator.tsdf, creator.tsdfColor, this`vertices, this`triangles, this`vertexColors
    {
      && (Fits(creator) ==> !fault && Extracted())
      && (!Fits(creator) ==> fault == ReadsOutside(creator, tables) && (!fault ==> Current() == EmptyMesh))
    }

    /** What one cycle of `MarchCubes` promises. A complete cloud gives the mesh
        of the grid just fused. A fault of the creator ends the cycle with the
        lists as they were; so does a creator without a grid. Otherwise the
        lists are refilled from the creator's grid over its size fields. */
    ghost predicate Cycle(pcVertices: Option<seq<Vec3>>, pcColors: Option<seq<Color>>, fault: bool, before: Mesh)
      reads creator`tsdf, creator`tsdfColor, creator`radius, creator`sizeX, creator`sizeY, creator`sizeZ,
            creator`tsdfOrigin, creator.tsdf, creator.tsdfColor, this`vertices, this`triangles, this`vertexColors
    {
      && Valid()
      && (Complete(pcVertices, pcColors) ==>
            !fault && creator.Built(pcVertices.value, pcColors.value) && creator.tsdf != null && Fits(creator) && Extracted())
      && (Short(pcVertices, pcColors) ==> fault && Current() == before)
      && (!Short(pcVertices, pcColors) && creator.tsdf == null ==> !fault && Current() == before)
      && (!Short(pcVertices, pcColors) && creator.tsdf != null ==> Refreshed(fault))
    }

    /** `MarchCubes`, one cycle: the creator's `CreateTSDFGrid`, then the
        extraction when the creator has a grid. Size fields that outrun the
        arrays (left by an earlier faulted cycle) fault on the first cube that
        reaches past them. */
    method MarchCubes(pcVertices: Option<seq<Vec3>>, pcColors: Option<seq<Color>>) returns (fault: bool)
      requires Valid()
      modifies creator, this`vertices, this`triangles, this`vertexColors
      ensures Cycle(pcVertices, pcColors, fault, old(Current()))
    {
      fault := creator.CreateTSDFGrid(pcVertices, pcColors);
      fault := Finish(pcVertices, pcColors, fault, old(Current()));
    }

    /** The rest of a cycle once the creator has returned, with what its
        `CreateTSDFGrid` promises about the cloud. */
    method Finish(ghost pcVertices: Option<seq<Vec3>>, ghost pcColors: Option<seq<Color>>, created: bool, ghost before: Mesh)
      returns (fault: bool)
      requires Valid() && Current() == before
      requires created == Short(pcVertices, pcColors)
      requires Complete(pcVertices, pcColors) ==> creator.Built(pcVertices.value, pcColors.value)
      modifies this`vertices, this`triangles, this`vertexColors
      ensures Cycle(pcVertices, pcColors, fault, before)
    {
      fault := created;
      if !created && creator.tsdf != null {
        fault := Refresh();
      }
    }

    /** The part of a cycle after the creator has a grid: the lists are cleared
        and refilled, or the cube loops fault on a voxel outside the arrays. */
    method Refresh() returns (fault: bool)
      requires Valid() && creator.tsdf != null
      modifies this`vertices, this`triangles, this`vertexColors
      ensures Refreshed(fault)
    {
      ClearMesh();
      fault := false;
      if Fits(creator) {
        Extract();
      } else if HasCubes(creator) {
        OverrunReadsOutside(creator, tables);
        fault := true;
      } else {
        NoCubesReadNothing(creator, tables);
      }
    }

    /** The cube loops over a grid whose voxels all exist. */
    method Extract()
      requires Valid() && creator.tsdf != null && Fits(creator)
      modifies this`vertices, this`triangles, this`vertexColors
      ensures Extracted()
    {
      var g := View(creator);
      var m := CubeMarch.MarchCubes(g, tables, EmptyMesh);
      ExtendLockstep(EmptyMesh, AllOut(g, tables));
      vertices, triangles, vertexColors := m.vertices, m.triangles, m.colors;
      assert View(creator) == g;
    }

    /** `clearMesh`. */
    method ClearMesh()
      modifies this`vertices, this`triangles, this`vertexColors
      ensures Current() == EmptyMesh
    {
      triangles, vertices, vertexColors := [], [], [];
    }
  }

  /** The creator's size fields lie within its arrays, so every voxel an
      extraction reads exists. */
  predicate Fits(creator: TsdfCreator)
    reads creator`tsdf, creator`sizeX, creator`sizeY, creator`sizeZ
    requires creator.tsdf != null
  {
    creator.sizeX <= creator.tsdf.Length0 && creator.sizeY <= creator.tsdf.Length1 && creator.sizeZ <= creator.tsdf.Length2
  }

  /** Every size field is at least 2, so the cube loops have a first cube. */
  predicate HasCubes(creator: TsdfCreator)
    reads creator`sizeX, creator`sizeY, creator`sizeZ
  {
    creator.sizeX >= 2 && creator.sizeY >= 2 && creator.sizeZ >= 2
  }

  /** Corner i of the cube with lowest corner (x, y, z) lies outside the
      creator's arrays. */
  predicate OutsideCorner(creator: TsdfCreator, t: Tables, x: int, y: int, z: int, i: int)
    reads creator`tsdf
    requires creator.tsdf != null && |t.corners| == 8 && 0 <= i < 8
  {
    var c := AddI(Vec3i(x, y, z), t.corners[i]);
    !(0 <= c.x < creator.tsdf.Length0 && 0 <= c.y < creator.tsdf.Length1 && 0 <= c.z < creator.tsdf.Length2)
  }

  /** Some cube the loops visit, `x < sizeX - 1`, `y < sizeY - 1`,
      `z < sizeZ - 1`, has a corner outside the arrays: its read
      `tsdf[corner.x, corner.y, corner.z]` faults. */
  ghost predicate ReadsOutside(creator: TsdfCreator, t: Tables)
    reads creator`tsdf, creator`sizeX, creator`sizeY, creator`sizeZ
    requires creator.tsdf != null && |t.corners| == 8
  {
    exists x, y, z, i :: 0 <= x < creator.sizeX - 1 && 0 <= y < creator.sizeY - 1 && 0 <= z < creator.sizeZ - 1 && 0 <= i < 8
      && OutsideCorner(creator, t, x, y, z, i)
  }

  /** Size fields within the arrays keep every corner read inside them. */
  lemma FitsReadsInside(creator: TsdfCreator, t: Tables)
    requires creator.tsdf != null && Fits(creator) && ValidTables(t)
    ensures !ReadsOutside(creator, t)
  {
    forall x, y, z, i | 0 <= x < creator.sizeX - 1 && 0 <= y < creator.sizeY - 1 && 0 <= z < creator.sizeZ - 1 && 0 <= i < 8
      ensures !OutsideCorner(creator, t, x, y, z, i)
    {
      assert UnitCorner(t.corners[i]);
    }
  }

  /** A size field past its array, with a first cube to visit, sends the read
      of the far corner of the last cube along that axis outside the arrays. */
  lemma OverrunReadsOutside(creator: TsdfCreator, t: Tables)
    requires creator.tsdf != null && !Fits(creator) && HasCubes(creator) && ValidTables(t) && FarCorner(t)
    ensures ReadsOutside(creator, t)
  {
    var i :| 0 <= i < |t.corners| && t.corners[i] == Vec3i(1, 1, 1);
    if creator.sizeX > creator.tsdf.Length0 {
      assert OutsideCorner(creator, t, creator.sizeX - 2, 0, 0, i);
    } else if creator.sizeY > creator.tsdf.Length1 {
      assert OutsideCorner(creator, t, 0, creator.sizeY - 2, 0, i);
    } else {
      assert OutsideCorner(creator, t, 0, 0, creator.sizeZ - 2, i);
    }
  }

  /** Without a first cube the loops read nothing. */
  lemma NoCubesReadNothing(creator: TsdfCreator, t: Tables)
    requires creator.tsdf != null && !HasCubes(creator) && ValidTables(t)
    ensures !ReadsOutside(creator, t)
  {
  }

  /** The creator's grid cropped to its size fields, as an extraction reads it. */
  function View(creator: TsdfCreator): (g: Grid)
    requires creator.Valid() && creator.tsdf != null && Fits(creator)
    reads creator`tsdf, creator`tsdfColor, creator`radius, creator`sizeX, creator`sizeY, creator`sizeZ,
          creator`tsdfOrigin, creator.tsdf, creator.tsdfColor
    ensures g.Valid() && g.sx == creator.sizeX && g.sy == creator.sizeY && g.sz == creator.sizeZ
  {
    Capture(creator.tsdf, creator.tsdfColor, creator.sizeX, creator.sizeY, creator.sizeZ,
            creator.tsdfOrigin, creator.resolution, creator.tsdfThreshold)
  }

  /** A creator whose fields and grids are as they were shows the same grid. */
  twostate lemma ViewUnchanged(creator: TsdfCreator)
    requires old(creator.Valid()) && old(creator.tsdf) != null && old(Fits(creator))
    requires unchanged(creator) && unchanged(old(creator.tsdf), old(creator.tsdfColor))
    ensures creator.Valid() && creator.tsdf != null && Fits(creator) && View(creator) == old(View(creator))
  {
  }

  /** Both arrays are present and non-empty: the creator frames the grid. */
  predicate Cloud(pcVertices: Option<seq<Vec3>>, pcColors: Option<seq<Color>>)
  {
    pcVertices.Some? && |pcVertices.value| > 0 && pcColors.Some? && |pcColors.value| > 0
  }

  /** A cloud with a colour for every point: the creator completes its cycle. */
  predicate Complete(pcVertices: Option<seq<Vec3>>, pcColors: Option<seq<Color>>)
  {
    Cloud(pcVertices, pcColors) && |pcColors.value| >= |pcVertices.value|
  }

  /** A cloud with fewer colours than points: the creator faults. */
  predicate Short(pcVertices: Option<seq<Vec3>>, pcColors: Option<seq<Color>>)
  {
    Cloud(pcVertices, pcColors) && |pcColors.value| < |pcVertices.value|
  }
}
