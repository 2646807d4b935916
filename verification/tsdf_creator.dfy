/** `TSDFCreator`: builds the grid the job-based extractors read. The point
    cloud is framed by its bounding box, a flat `NativeArray` grid indexed
    `x * strideYZ + y * sizeZ + z` is reset to `truncation` by one job and
    filled by another (one `Execute(i)` per point, min-replace rule), and the
    flat grid is then unflattened into `float[,,]` and `Color[,,]` arrays.
    The jobs' `Execute(i)` calls run in index order here. */
module TsdfCreation {
  import opened Geometry
  import opened VoxelIndex
  import opened MinFusion
  import opened VoxelSweep

  /** `TSDFResetJob`. */
  datatype ResetJob = ResetJob(tsdf: array<real>, truncation: real)
  {
    /** Sets entry i to `truncation`. */
    method Execute(i: int)
      requires 0 <= i < tsdf.Length
      modifies tsdf
      ensures tsdf[i] == truncation
      ensures forall k :: 0 <= k < tsdf.Length && k != i ==> tsdf[k] == old(tsdf[k])
    {
      tsdf[i] := truncation;
    }

    /** `Schedule(n, 64)` followed by completion: `Execute(0)` … `Execute(n - 1)`. */
    method Run(n: int)
      requires 0 <= n <= tsdf.Length
      modifies tsdf
      ensures forall k :: 0 <= k < n ==> tsdf[k] == truncation
      ensures forall k :: n <= k < tsdf.Length ==> tsdf[k] == old(tsdf[k])
    {
      for i := 0 to n
        invariant forall k :: 0 <= k < i ==> tsdf[k] == truncation
        invariant forall k :: i <= k < tsdf.Length ==> tsdf[k] == old(tsdf[k])
      {
        Execute(i);
      }
    }
  }

  /** `TSDFIntegrationJob`: the points and their colours (read only), the flat
      grids it writes, and the grid parameters. */
  datatype IntegrationJob = IntegrationJob(points: seq<Vec3>, colors: seq<Color>,
                                           tsdf: array<real>, tsdfColor: array<Color>,
                                           origin: Vec3, resolution: real, truncation: real, radius: int,
                                           sizeX: int, sizeY: int, sizeZ: int, strideYZ: int,
                                           dist: (Vec3, Vec3) -> real)
  {
    /** The integration pass the job performs. */
    function Pass(): Sweep
    {
      Sweep(origin, resolution, truncation, radius, sizeX, sizeY, sizeZ, dist)
    }

    /** Both flat grids hold `sizeX * sizeY * sizeZ` voxels and the stride is `sizeY * sizeZ`. */
    ghost predicate Valid()
    {
      && Pass().Valid() && strideYZ == sizeY * sizeZ
      && tsdf.Length == sizeX * sizeY * sizeZ && tsdfColor.Length == tsdf.Length
    }

    /** The flat grids hold what the first n points leave in a grid reset to
        `truncation` whose colours start `Clear`. */
    ghost predicate FusedFlat(n: nat)
      requires Valid() && n <= |points| && n <= |colors|
      reads tsdf, tsdfColor
    {
      forall x, y, z {:trigger Slot(x, y, z, sizeX, sizeY, sizeZ)} :: InBox(x, y, z, sizeX, sizeY, sizeZ) ==>
        && tsdf[Slot(x, y, z, sizeX, sizeY, sizeZ)] == MinFold(Pass(), points, n, Vec3i(x, y, z))
        && tsdfColor[Slot(x, y, z, sizeX, sizeY, sizeZ)] == ColorFold(Pass(), points, colors, n, Vec3i(x, y, z), Clear)
    }

    /** `Execute(i)`: the sweep of point i over the flat grids. Every voxel
        changes as `Relax` and `Recolor` say. */
    method Execute(i: int)
      requires Valid() && 0 <= i < |points| && i < |colors|
      modifies tsdf, tsdfColor
      ensures forall x, y, z {:trigger Slot(x, y, z, sizeX, sizeY, sizeZ)} :: InBox(x, y, z, sizeX, sizeY, sizeZ) ==>
        && tsdf[Slot(x, y, z, sizeX, sizeY, sizeZ)] == Pass().Relax(points[i], Vec3i(x, y, z), old(tsdf[Slot(x, y, z, sizeX, sizeY, sizeZ)]))
        && tsdfColor[Slot(x, y, z, sizeX, sizeY, sizeZ)]
             == Pass().Recolor(points[i], colors[i], Vec3i(x, y, z), old(tsdf[Slot(x, y, z, sizeX, sizeY, sizeZ)]), old(tsdfColor[Slot(x, y, z, sizeX, sizeY, sizeZ)]))
    {
      var sw := Pass();
      var p := points[i];
      for dx := -radius to radius + 1
        invariant forall x, y, z {:trigger Slot(x, y, z, sizeX, sizeY, sizeZ)} :: InBox(x, y, z, sizeX, sizeY, sizeZ) ==>
          && tsdf[Slot(x, y, z, sizeX, sizeY, sizeZ)] == (if sw.SweptBefore(p, Vec3i(x, y, z), dx, -radius, -radius)
               then sw.Relax(p, Vec3i(x, y, z), old(tsdf[Slot(x, y, z, sizeX, sizeY, sizeZ)])) else old(tsdf[Slot(x, y, z, sizeX, sizeY, sizeZ)]))
          && tsdfColor[Slot(x, y, z, sizeX, sizeY, sizeZ)] == (if sw.SweptBefore(p, Vec3i(x, y, z), dx, -radius, -radius)
               then sw.Recolor(p, colors[i], Vec3i(x, y, z), old(tsdf[Slot(x, y, z, sizeX, sizeY, sizeZ)]), old(tsdfColor[Slot(x, y, z, sizeX, sizeY, sizeZ)]))
               else old(tsdfColor[Slot(x, y, z, sizeX, sizeY, sizeZ)]))
      {
        for dy := -radius to radius + 1
          invariant forall x, y, z {:trigger Slot(x, y, z, sizeX, sizeY, sizeZ)} :: InBox(x, y, z, sizeX, sizeY, sizeZ) ==>
            && tsdf[Slot(x, y, z, sizeX, sizeY, sizeZ)] == (if sw.SweptBefore(p, Vec3i(x, y, z), dx, dy, -radius)
                 then sw.Relax(p, Vec3i(x, y, z), old(tsdf[Slot(x, y, z, sizeX, sizeY, sizeZ)])) else old(tsdf[Slot(x, y, z, sizeX, sizeY, sizeZ)]))
            && tsdfColor[Slot(x, y, z, sizeX, sizeY, sizeZ)] == (if sw.SweptBefore(p, Vec3i(x, y, z), dx, dy, -radius)
                 then sw.Recolor(p, colors[i], Vec3i(x, y, z), old(tsdf[Slot(x, y, z, sizeX, sizeY, sizeZ)]), old(tsdfColor[Slot(x, y, z, sizeX, sizeY, sizeZ)]))
                 else old(tsdfColor[Slot(x, y, z, sizeX, sizeY, sizeZ)]))
        {
          SweepColumn(i, dx, dy);
        }
      }
    }

    /** The innermost loop of `Execute(i)`: offsets (dx, dy, -radius) … (dx, dy, radius). */
    method SweepColumn(i: int, dx: int, dy: int)
      requires Valid() && 0 <= i < |points| && i < |colors|
      requires -radius <= dx <= radius && -radius <= dy <= radius
      modifies tsdf, tsdfColor
      ensures forall x, y, z {:trigger Slot(x, y, z, sizeX, sizeY, sizeZ)} :: InBox(x, y, z, sizeX, sizeY, sizeZ) ==>
        var h := Pass().Home(points[i]);
        && tsdf[Slot(x, y, z, sizeX, sizeY, sizeZ)] == (if x == h.x + dx && y == h.y + dy
             then Pass().Relax(points[i], Vec3i(x, y, z), old(tsdf[Slot(x, y, z, sizeX, sizeY, sizeZ)])) else old(tsdf[Slot(x, y, z, sizeX, sizeY, sizeZ)]))
        && tsdfColor[Slot(x, y, z, sizeX, sizeY, sizeZ)] == (if x == h.x + dx && y == h.y + dy
             then Pass().Recolor(points[i], colors[i], Vec3i(x, y, z), old(tsdf[Slot(x, y, z, sizeX, sizeY, sizeZ)]), old(tsdfColor[Slot(x, y, z, sizeX, sizeY, sizeZ)]))
             else old(tsdfColor[Slot(x, y, z, sizeX, sizeY, sizeZ)]))
    {
      var sw := Pass();
      var p, c := points[i], colors[i];
      var h := sw.Home(p);
      for dz := -radius to radius + 1
        invariant forall x, y, z {:trigger Slot(x, y, z, sizeX, sizeY, sizeZ)} :: InBox(x, y, z, sizeX, sizeY, sizeZ) ==>
          && tsdf[Slot(x, y, z, sizeX, sizeY, sizeZ)] == (if x == h.x + dx && y == h.y + dy && z - h.z < dz
               then sw.Relax(p, Vec3i(x, y, z), old(tsdf[Slot(x, y, z, sizeX, sizeY, sizeZ)])) else old(tsdf[Slot(x, y, z, sizeX, sizeY, sizeZ)]))
          && tsdfColor[Slot(x, y, z, sizeX, sizeY, sizeZ)] == (if x == h.x + dx && y == h.y + dy && z - h.z < dz
               then sw.Recolor(p, c, Vec3i(x, y, z), old(tsdf[Slot(x, y, z, sizeX, sizeY, sizeZ)]), old(tsdfColor[Slot(x, y, z, sizeX, sizeY, sizeZ)]))
               else old(tsdfColor[Slot(x, y, z, sizeX, sizeY, sizeZ)]))
      {
        var x, y, z := h.x + dx, h.y + dy, h.z + dz;
        if x < 0 || y < 0 || z < 0 || x >= sizeX || y >= sizeY || z >= sizeZ {
          continue;
        }
        var idx := x * strideYZ + y * sizeZ + z;
        assert idx == Slot(x, y, z, sizeX, sizeY, sizeZ);
        IndexOnly(x, y, z, sizeX, sizeY, sizeZ);
        var voxelPos := Add(origin, Scale(Vec3(x as real, y as real, z as real), resolution));
        var v := Clamp(dist(voxelPos, p) - resolution, -truncation, truncation);
        if v < tsdf[idx] {
          tsdf[idx] := v;
          tsdfColor[idx] := c;
        }
      }
    }

    /** `Schedule(points.Length, 64, hReset)` followed by `Complete()`:
        `Execute(0)` … `Execute(n - 1)` on a freshly reset grid. */
    method Run()
      requires Valid() && |points| <= |colors| && FusedFlat(0)
      modifies tsdf, tsdfColor
      ensures FusedFlat(|points|)
    {
      for i := 0 to |points|
        invariant Valid() && i <= |colors|
        invariant FusedFlat(i)
      {
        Step(i);
      }
    }

    /** One iteration of `Run`: `Execute(i)` on a grid holding the fold of the
        first i points leaves the fold of the first i + 1. */
    method Step(i: nat)
      requires Valid() && i < |points| <= |colors| && FusedFlat(i)
      modifies tsdf, tsdfColor
      ensures FusedFlat(i + 1)
    {
      Execute(i);
      FusedStep(i);
    }

    /** A sweep of point i over a grid that held the fold of the first i
        points leaves the fold of the first i + 1. */
    twostate lemma FusedStep(i: nat)
      requires Valid() && i < |points| && i < |colors|
      requires old(FusedFlat(i))
      requires forall x, y, z {:trigger Slot(x, y, z, sizeX, sizeY, sizeZ)} :: InBox(x, y, z, sizeX, sizeY, sizeZ) ==>
        && tsdf[Slot(x, y, z, sizeX, sizeY, sizeZ)] == Pass().Relax(points[i], Vec3i(x, y, z), old(tsdf[Slot(x, y, z, sizeX, sizeY, sizeZ)]))
        && tsdfColor[Slot(x, y, z, sizeX, sizeY, sizeZ)]
             == Pass().Recolor(points[i], colors[i], Vec3i(x, y, z), old(tsdf[Slot(x, y, z, sizeX, sizeY, sizeZ)]), old(tsdfColor[Slot(x, y, z, sizeX, sizeY, sizeZ)]))
      ensures FusedFlat(i + 1)
    {
    }
  }

  /** The unflatten loop of `CreateTSDFGrid`: copies the flat grids into fresh
      `float[sx, sy, sz]` and `Color[sx, sy, sz]` arrays, voxel `(x, y, z)`
      from flat entry `x * strideYZ + y * sizeZ + z`. */
  method Expand(flat: array<real>, flatColor: array<Color>, sx: int, sy: int, sz: int)
    returns (tsdf: array3<real>, tsdfColor: array3<Color>)
    requires sx >= 1 && sy >= 1 && sz >= 1
    requires flat.Length == sx * sy * sz && flatColor.Length == flat.Length
    ensures fresh(tsdf) && fresh(tsdfColor)
    ensures tsdf.Length0 == sx && tsdf.Length1 == sy && tsdf.Length2 == sz
    ensures tsdfColor.Length0 == sx && tsdfColor.Length1 == sy && tsdfColor.Length2 == sz
    ensures forall x, y, z :: InBox(x, y, z, sx, sy, sz) ==>
      tsdf[x, y, z] == flat[Slot(x, y, z, sx, sy, sz)] && tsdfColor[x, y, z] == flatColor[Slot(x, y, z, sx, sy, sz)]
  {
    tsdf := new real[sx, sy, sz];
    tsdfColor := new Color[sx, sy, sz]((_, _, _) => Clear);
    var strideYZ := sy * sz;
    for x := 0 to sx
      invariant forall i, j, k :: InBox(i, j, k, x, sy, sz) ==>
        tsdf[i, j, k] == flat[Slot(i, j, k, sx, sy, sz)] && tsdfColor[i, j, k] == flatColor[Slot(i, j, k, sx, sy, sz)]
    {
      for y := 0 to sy
        invariant forall i, j, k :: InBox(i, j, k, x, sy, sz) ==>
          tsdf[i, j, k] == flat[Slot(i, j, k, sx, sy, sz)] && tsdfColor[i, j, k] == flatColor[Slot(i, j, k, sx, sy, sz)]
        invariant forall j, k :: 0 <= j < y && 0 <= k < sz ==>
          tsdf[x, j, k] == flat[Slot(x, j, k, sx, sy, sz)] && tsdfColor[x, j, k] == flatColor[Slot(x, j, k, sx, sy, sz)]
      {
        for z := 0 to sz
          invariant forall i, j, k :: InBox(i, j, k, x, sy, sz) ==>
            tsdf[i, j, k] == flat[Slot(i, j, k, sx, sy, sz)] && tsdfColor[i, j, k] == flatColor[Slot(i, j, k, sx, sy, sz)]
          invariant forall j, k :: 0 <= j < y && 0 <= k < sz ==>
            tsdf[x, j, k] == flat[Slot(x, j, k, sx, sy, sz)] && tsdfColor[x, j, k] == flatColor[Slot(x, j, k, sx, sy, sz)]
          invariant forall k :: 0 <= k < z ==>
            tsdf[x, y, k] == flat[Slot(x, y, k, sx, sy, sz)] && tsdfColor[x, y, k] == flatColor[Slot(x, y, k, sx, sy, sz)]
        {
          var idx := x * strideYZ + y * sz + z;
          assert idx == Slot(x, y, z, sx, sy, sz);
          tsdf[x, y, z] := flat[idx];
          tsdfColor[x, y, z] := flatColor[idx];
        }
      }
    }
  }

  /** The copy loop of `CreateTSDFGrid`: the points and colours go into arrays of
      their own lengths, point by point; a point without a colour faults. */
  method CopyCloud(vs: seq<Vec3>, cs: seq<Color>) returns (fault: bool, naPts: array<Vec3>, naCols: array<Color>)
    ensures fresh(naPts) && fresh(naCols)
    ensures fault == (|cs| < |vs|)
    ensures !fault ==> naPts[..] == vs && naCols.Length == |cs| && forall i :: 0 <= i < |vs| ==> naCols[i] == cs[i]
  {
    naPts := new Vec3[|vs|](_ => Vec3(0.0, 0.0, 0.0));
    naCols := new Color[|cs|](_ => Clear);
    for i := 0 to |vs|
      invariant i <= |cs|
      invariant forall k :: 0 <= k < i ==> naPts[k] == vs[k] && naCols[k] == cs[k]
    {
      if i >= |cs| {
        return true, naPts, naCols;
      }
      naPts[i] := vs[i];
      naCols[i] := cs[i];
    }
    fault := false;
  }

  class TsdfCreator {
    /** Editor settings; `dist` is `math.distance`. */
    const resolution: real
    const tsdfThreshold: real
    const truncation: real
    const dist: (Vec3, Vec3) -> real

    var tsdf: array3?<real>
    var tsdfColor: array3?<Color>
    var tsdfOrigin: Vec3
    var sizeX: int
    var sizeY: int
    var sizeZ: int
    var radius: int
    var strideYZ: int

    /** The two managed grids exist together and have the same non-empty shape.
        The size fields need not describe them: a cycle that faults after the
        bounding box leaves new sizes beside the previous grids. */
    ghost predicate Valid()
      reads this`tsdf, this`tsdfColor, this`radius, this`sizeX, this`sizeY, this`sizeZ
    {
      && resolution > 0.0 && truncation >= 0.0 && radius >= 0
      && (tsdf == null <==> tsdfColor == null)
      && (tsdf != null ==>
            && sizeX >= 1 && sizeY >= 1 && sizeZ >= 1
            && tsdf.Length0 >= 1 && tsdf.Length1 >= 1 && tsdf.Length2 >= 1
            && tsdfColor.Length0 == tsdf.Length0 && tsdfColor.Length1 == tsdf.Length1 && tsdfColor.Length2 == tsdf.Length2)
    }

    /** The integration pass of the current grid frame. */
    function Pass(): (sw: Sweep)
      reads this`tsdfOrigin, this`sizeX, this`sizeY, this`sizeZ, this`radius
      ensures sw.origin == tsdfOrigin && sw.resolution == resolution && sw.truncation == truncation && sw.radius == radius
      ensures sw.sx == sizeX && sw.sy == sizeY && sw.sz == sizeZ && sw.dist == dist
    {
      Sweep(tsdfOrigin, resolution, truncation, radius, sizeX, sizeY, sizeZ, dist)
    }

    /** Both grids exist, have the shape of the frame and hold what the
        whole cloud leaves in them. */
    ghost predicate Built(vs: seq<Vec3>, cs: seq<Color>)
      requires |vs| <= |cs|
      reads this`tsdf, this`tsdfColor, this`tsdfOrigin, this`sizeX, this`sizeY, this`sizeZ, this`radius, tsdf, tsdfColor
    {
      && tsdf != null && tsdfColor != null && Pass().Valid() && Shaped(Pass(), tsdf, tsdfColor)
      && Fused(Pass(), tsdf, tsdfColor, vs, cs, |vs|)
    }

    /** A creator before `Start`: no grid, radius 0. */
    constructor (resolution: real, tsdfThreshold: real, truncation: real, dist: (Vec3, Vec3) -> real)
      requires resolution > 0.0 && truncation >= 0.0
      ensures Valid() && tsdf == null && radius == 0
      ensures this.resolution == resolution && this.tsdfThreshold == tsdfThreshold
      ensures this.truncation == truncation && this.dist == dist
    {
      this.resolution := resolution;
      this.tsdfThreshold := tsdfThreshold;
      this.truncation := truncation;
      this.dist := dist;
      tsdf, tsdfColor := null, null;
      tsdfOrigin := Vec3(0.0, 0.0, 0.0);
      sizeX, sizeY, sizeZ, radius, strideYZ := 0, 0, 0, 0, 0;
    }

    /** `Start`: the sweep radius `CeilToInt(truncation / resolution)`, the
        smallest whole number of voxels that spans the truncation distance. */
    method Start()
      requires Valid()
      modifies this`radius
      ensures Valid()
      ensures radius as real * resolution >= truncation
      ensures radius == 0 || (radius - 1) as real < truncation / resolution
    {
      var q := truncation / resolution;
      radius := CeilToInt(q);
      assert q * resolution == truncation;
      assert radius as real >= q >= 0.0;
      assert radius as real * resolution >= q * resolution;
    }

    /** Steps 1 and 2 of `CreateTSDFGrid`: origin, sizes and stride from the
        bounding box of a non-empty cloud. */
    method Frame(vs: seq<Vec3>)
      requires Valid() && |vs| > 0
      modifies this`tsdfOrigin, this`sizeX, this`sizeY, this`sizeZ, this`strideYZ
      ensures Valid() && Frames(Pass(), vs) && strideYZ == sizeY * sizeZ
    {
      var sw := FrameBatch(vs, resolution, truncation, radius, dist);
      tsdfOrigin, sizeX, sizeY, sizeZ := sw.origin, sw.sx, sw.sy, sw.sz;
      strideYZ := sizeY * sizeZ;
      assert Pass() == sw;
    }

    /** `CreateTSDFGrid`. A null or empty vertex or colour array returns at
        once. Otherwise the grid is framed on the cloud; a colour array shorter
        than the vertex array then faults in the copy loop, leaving the new
        origin, sizes and stride beside the previous grids. A complete cycle
        replaces both grids with what the integration leaves: every voxel holds
        `MinFold` of the cloud and `ColorFold` of its colours from `Clear`. */
    method CreateTSDFGrid(pcVertices: Option<seq<Vec3>>, pcColors: Option<seq<Color>>) returns (fault: bool)
      requires Valid()
      modifies this
      ensures Valid()
      ensures (pcVertices.None? || |pcVertices.value| == 0 || pcColors.None? || |pcColors.value| == 0) ==>
        !fault && unchanged(this)
      ensures pcVertices.Some? && |pcVertices.value| > 0 && pcColors.Some? && |pcColors.value| > 0 ==>
        && Frames(Pass(), pcVertices.value) && strideYZ == sizeY * sizeZ
        && fault == (|pcColors.value| < |pcVertices.value|)
        && (fault ==> tsdf == old(tsdf) && tsdfColor == old(tsdfColor))
        && (!fault ==> Built(pcVertices.value, pcColors.value))
    {
      if pcVertices.None? || |pcVertices.value| == 0 {
        return false;
      }
      if pcColors.None? || |pcColors.value| == 0 {
        return false;
      }
      var vs, cs := pcVertices.value, pcColors.value;
      Frame(vs);
      var t3, c3;
      fault, t3, c3 := Integrate(Pass(), strideYZ, vs, cs);
      if !fault {
        Install(t3, c3, vs, cs);
      }
    }

    /** The last step of a complete cycle: the new grids replace the old ones. */
    method Install(t3: array3<real>, c3: array3<Color>, vs: seq<Vec3>, cs: seq<Color>)
      requires Valid() && Pass().Valid() && |vs| <= |cs| && Shaped(Pass(), t3, c3) && Fused(Pass(), t3, c3, vs, cs, |vs|)
      modifies this`tsdf, this`tsdfColor
      ensures Valid() && Built(vs, cs) && tsdf == t3 && tsdfColor == c3
    {
      tsdf, tsdfColor := t3, c3;
    }
  }

  /** Steps 3 to 6 of `CreateTSDFGrid` on a framed cloud: flat grids of
      `sizeX * sizeY * sizeZ` entries reset by the reset job, the copy of the
      cloud (which faults on a missing colour), the integration job and the
      unflatten loop. */
  method Integrate(sw: Sweep, strideYZ: int, vs: seq<Vec3>, cs: seq<Color>)
    returns (fault: bool, tsdf: array3<real>, tsdfColor: array3<Color>)
    requires sw.Valid() && strideYZ == sw.sy * sw.sz
    ensures fault == (|cs| < |vs|)
    ensures !fault ==> fresh(tsdf) && fresh(tsdfColor) && Shaped(sw, tsdf, tsdfColor) && Fused(sw, tsdf, tsdfColor, vs, cs, |vs|)
  {
    var total := sw.sx * sw.sy * sw.sz;
    var tsdfFlat := new real[total];
    var tsdfColorFlat := new Color[total](_ => Clear);
    ResetJob(tsdfFlat, sw.truncation).Run(total);
    var naPts, naCols;
    fault, naPts, naCols := CopyCloud(vs, cs);
    if fault {
      tsdf, tsdfColor := new real[0, 0, 0], new Color[0, 0, 0];
      return;
    }
    var job := IntegrationJob(naPts[..], naCols[..], tsdfFlat, tsdfColorFlat, sw.origin, sw.resolution, sw.truncation,
                              sw.radius, sw.sx, sw.sy, sw.sz, strideYZ, sw.dist);
    assert job.Pass() == sw;
    StartFlat(job);
    job.Run();
    tsdf, tsdfColor := Expand(tsdfFlat, tsdfColorFlat, sw.sx, sw.sy, sw.sz);
    FusedExpanded(job, tsdf, tsdfColor, vs, cs);
  }

  /** A flat grid reset to `truncation` with every colour `Clear` is where the
      integration starts. */
  lemma StartFlat(job: IntegrationJob)
    requires job.Valid() && |job.points| <= |job.colors|
    requires forall k :: 0 <= k < job.tsdf.Length ==> job.tsdf[k] == job.truncation
    requires forall k :: 0 <= k < job.tsdfColor.Length ==> job.tsdfColor[k] == Clear
    ensures job.FusedFlat(0)
  {
  }

  /** What the integration leaves in the flat grids, unflattened, is `Fused`
      over the original cloud. */
  lemma FusedExpanded(job: IntegrationJob, tsdf: array3<real>, tsdfColor: array3<Color>, vs: seq<Vec3>, cs: seq<Color>)
    requires job.Valid() && |job.points| <= |job.colors| && job.FusedFlat(|job.points|)
    requires job.points == vs && |vs| <= |cs| && forall i :: 0 <= i < |vs| ==> job.colors[i] == cs[i]
    requires Shaped(job.Pass(), tsdf, tsdfColor)
    requires forall x, y, z :: InBox(x, y, z, job.sizeX, job.sizeY, job.sizeZ) ==>
      tsdf[x, y, z] == job.tsdf[Slot(x, y, z, job.sizeX, job.sizeY, job.sizeZ)]
      && tsdfColor[x, y, z] == job.tsdfColor[Slot(x, y, z, job.sizeX, job.sizeY, job.sizeZ)]
    ensures Fused(job.Pass(), tsdf, tsdfColor, vs, cs, |vs|)
  {
    forall x, y, z | InBox(x, y, z, job.sizeX, job.sizeY, job.sizeZ)
      ensures ColorFold(job.Pass(), vs, job.colors, |vs|, Vec3i(x, y, z), Clear) == ColorFold(job.Pass(), vs, cs, |vs|, Vec3i(x, y, z), Clear)
    {
      ColorFoldPrefix(job.Pass(), vs, job.colors, cs, |vs|, Vec3i(x, y, z), Clear);
    }
  }
}
