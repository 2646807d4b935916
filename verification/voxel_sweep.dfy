/** In-place passes over a `float[,,]` signed-distance grid and its `Color[,,]`
    colour grid, as the rebuilding integrators run them: the reset to
    `truncation` and the min-replace sweep of one point. */
module VoxelSweep {
  import opened Geometry
  import opened MinFusion

  /** The arrays have the grid shape of the sweep. */
  predicate Shaped(sw: Sweep, tsdf: array3<real>, colors: array3<Color>)
  {
    && tsdf.Length0 == sw.sx && tsdf.Length1 == sw.sy && tsdf.Length2 == sw.sz
    && colors.Length0 == sw.sx && colors.Length1 == sw.sy && colors.Length2 == sw.sz
  }

  /** The triple loop that sets every voxel to `truncation`. */
  method Reset(tsdf: array3<real>, truncation: real)
    modifies tsdf
    ensures forall x, y, z :: 0 <= x < tsdf.Length0 && 0 <= y < tsdf.Length1 && 0 <= z < tsdf.Length2 ==>
      tsdf[x, y, z] == truncation
  {
    for x := 0 to tsdf.Length0
      invariant forall i, j, k :: 0 <= i < x && 0 <= j < tsdf.Length1 && 0 <= k < tsdf.Length2 ==> tsdf[i, j, k] == truncation
    {
      for y := 0 to tsdf.Length1
        invariant forall i, j, k :: 0 <= i < x && 0 <= j < tsdf.Length1 && 0 <= k < tsdf.Length2 ==> tsdf[i, j, k] == truncation
        invariant forall j, k :: 0 <= j < y && 0 <= k < tsdf.Length2 ==> tsdf[x, j, k] == truncation
      {
        for z := 0 to tsdf.Length2
          invariant forall i, j, k :: 0 <= i < x && 0 <= j < tsdf.Length1 && 0 <= k < tsdf.Length2 ==> tsdf[i, j, k] == truncation
          invariant forall j, k :: 0 <= j < y && 0 <= k < tsdf.Length2 ==> tsdf[x, j, k] == truncation
          invariant forall k :: 0 <= k < z ==> tsdf[x, y, k] == truncation
        {
          tsdf[x, y, z] := truncation;
        }
      }
    }
  }

  /** `new float[sx, sy, sz]` reset to `truncation`, and `new Color[sx, sy, sz]`,
      whose entries are the zero colour. */
  method Allocate(sx: nat, sy: nat, sz: nat, truncation: real) returns (tsdf: array3<real>, colors: array3<Color>)
    ensures fresh(tsdf) && fresh(colors)
    ensures tsdf.Length0 == sx && tsdf.Length1 == sy && tsdf.Length2 == sz
    ensures colors.Length0 == sx && colors.Length1 == sy && colors.Length2 == sz
    ensures forall x, y, z :: 0 <= x < sx && 0 <= y < sy && 0 <= z < sz ==> tsdf[x, y, z] == truncation
    ensures forall x, y, z :: 0 <= x < sx && 0 <= y < sy && 0 <= z < sz ==> colors[x, y, z] == Clear
  {
    tsdf := new real[sx, sy, sz];
    colors := new Color[sx, sy, sz]((_, _, _) => Clear);
    Reset(tsdf, truncation);
  }

  /** The sweep of one point p with colour `col`: every voxel within `radius` of
      p's home voxel and inside the grid takes the point's candidate, and its
      colour, when the candidate is strictly below the stored value. */
  method SweepPoint(tsdf: array3<real>, colors: array3<Color>, sw: Sweep, p: Vec3, col: Color)
    requires sw.Valid() && Shaped(sw, tsdf, colors)
    modifies tsdf, colors
    ensures forall x, y, z :: 0 <= x < sw.sx && 0 <= y < sw.sy && 0 <= z < sw.sz ==>
      && tsdf[x, y, z] == sw.Relax(p, Vec3i(x, y, z), old(tsdf[x, y, z]))
      && colors[x, y, z] == sw.Recolor(p, col, Vec3i(x, y, z), old(tsdf[x, y, z]), old(colors[x, y, z]))
  {
    var r := sw.radius;
    for dx := -r to r + 1
      invariant forall x, y, z :: 0 <= x < sw.sx && 0 <= y < sw.sy && 0 <= z < sw.sz ==>
        && tsdf[x, y, z] == (if sw.SweptBefore(p, Vec3i(x, y, z), dx, -r, -r) then sw.Relax(p, Vec3i(x, y, z), old(tsdf[x, y, z])) else old(tsdf[x, y, z]))
        && colors[x, y, z] == (if sw.SweptBefore(p, Vec3i(x, y, z), dx, -r, -r) then sw.Recolor(p, col, Vec3i(x, y, z), old(tsdf[x, y, z]), old(colors[x, y, z])) else old(colors[x, y, z]))
    {
      for dy := -r to r + 1
        invariant forall x, y, z :: 0 <= x < sw.sx && 0 <= y < sw.sy && 0 <= z < sw.sz ==>
          && tsdf[x, y, z] == (if sw.SweptBefore(p, Vec3i(x, y, z), dx, dy, -r) then sw.Relax(p, Vec3i(x, y, z), old(tsdf[x, y, z])) else old(tsdf[x, y, z]))
          && colors[x, y, z] == (if sw.SweptBefore(p, Vec3i(x, y, z), dx, dy, -r) then sw.Recolor(p, col, Vec3i(x, y, z), old(tsdf[x, y, z]), old(colors[x, y, z])) else old(colors[x, y, z]))
      {
        SweepColumn(tsdf, colors, sw, p, col, dx, dy);
      }
    }
  }

  /** The innermost loop of the sweep: offsets (dx, dy, -radius) … (dx, dy, radius)
      from p's home voxel. Only the voxels of that column change, each as `Relax` says. */
  method SweepColumn(tsdf: array3<real>, colors: array3<Color>, sw: Sweep, p: Vec3, col: Color, dx: int, dy: int)
    requires sw.Valid() && Shaped(sw, tsdf, colors)
    requires -sw.radius <= dx <= sw.radius && -sw.radius <= dy <= sw.radius
    modifies tsdf, colors
    ensures forall x, y, z :: 0 <= x < sw.sx && 0 <= y < sw.sy && 0 <= z < sw.sz ==>
      && tsdf[x, y, z] == (if x == sw.Home(p).x + dx && y == sw.Home(p).y + dy then sw.Relax(p, Vec3i(x, y, z), old(tsdf[x, y, z])) else old(tsdf[x, y, z]))
      && colors[x, y, z] == (if x == sw.Home(p).x + dx && y == sw.Home(p).y + dy then sw.Recolor(p, col, Vec3i(x, y, z), old(tsdf[x, y, z]), old(colors[x, y, z])) else old(colors[x, y, z]))
  {
    var r := sw.radius;
    var h := sw.Home(p);
    for dz := -r to r + 1
      invariant forall x, y, z :: 0 <= x < sw.sx && 0 <= y < sw.sy && 0 <= z < sw.sz ==>
        && tsdf[x, y, z] == (if x == h.x + dx && y == h.y + dy && z - h.z < dz then sw.Relax(p, Vec3i(x, y, z), old(tsdf[x, y, z])) else old(tsdf[x, y, z]))
        && colors[x, y, z] == (if x == h.x + dx && y == h.y + dy && z - h.z < dz then sw.Recolor(p, col, Vec3i(x, y, z), old(tsdf[x, y, z]), old(colors[x, y, z])) else old(colors[x, y, z]))
    {
      var x, y, z := h.x + dx, h.y + dy, h.z + dz;
      if x < 0 || y < 0 || z < 0 || x >= sw.sx || y >= sw.sy || z >= sw.sz {
        continue;
      }
      var voxelPos := Add(sw.origin, Scale(Vec3(x as real, y as real, z as real), sw.resolution));
      var v := Clamp(sw.dist(voxelPos, p) - sw.resolution, -sw.truncation, sw.truncation);
      if v < tsdf[x, y, z] {
        tsdf[x, y, z] := v;
        colors[x, y, z] := col;
      }
    }
  }

  /** The grid of sw is framed on the bounding box of `ps`: its origin is the
      minimum corner, each size is `CeilToInt(span / resolution) + 1`, and every
      point's home voxel lies inside the grid. */
  ghost predicate Frames(sw: Sweep, ps: seq<Vec3>)
  {
    && sw.Valid() && IsMinCorner(sw.origin, ps)
    && (forall hi :: IsMaxCorner(hi, ps) ==> Spans(sw, hi))
    && (forall i :: 0 <= i < |ps| ==> sw.InGrid(sw.Home(ps[i])))
  }

  /** The grid of sw reaches from its origin to hi: each size is
      `CeilToInt((hi - origin) / resolution) + 1`. */
  ghost predicate Spans(sw: Sweep, hi: Vec3)
  {
    && sw.resolution > 0.0 && Below(sw.origin, hi)
    && sw.sx == GridDim(hi.x - sw.origin.x, sw.resolution)
    && sw.sy == GridDim(hi.y - sw.origin.y, sw.resolution)
    && sw.sz == GridDim(hi.z - sw.origin.z, sw.resolution)
  }

  /** A grid placed at the minimum corner of a batch with the sizes of its
      bounding box frames the batch. */
  lemma FramesBox(sw: Sweep, ps: seq<Vec3>, lo: Vec3, hi: Vec3)
    requires sw.Valid() && Spans(sw, hi) && sw.origin == lo
    requires IsMinCorner(lo, ps) && IsMaxCorner(hi, ps)
    ensures Frames(sw, ps)
  {
    forall i | 0 <= i < |ps|
      ensures sw.InGrid(sw.Home(ps[i]))
    {
      HomeInGrid(ps, lo, hi, sw.resolution, i);
    }
    forall h | IsMaxCorner(h, ps)
      ensures h == hi
    {
      MaxCornerUnique(h, hi, ps);
    }
  }

  /** The grid placement of a rebuilding cycle: the bounding box of the batch,
      the origin at its minimum corner and each size
      `CeilToInt(span / resolution) + 1`. */
  method FrameBatch(ps: seq<Vec3>, resolution: real, truncation: real, radius: int, dist: (Vec3, Vec3) -> real)
    returns (sw: Sweep)
    requires |ps| > 0 && resolution > 0.0 && truncation >= 0.0 && radius >= 0
    ensures sw.resolution == resolution && sw.truncation == truncation && sw.radius == radius && sw.dist == dist
    ensures Frames(sw, ps)
  {
    var lo, hi := Bounds(ps);
    var sx, sy, sz := GridDim(hi.x - lo.x, resolution), GridDim(hi.y - lo.y, resolution), GridDim(hi.z - lo.z, resolution);
    sw := Sweep(lo, resolution, truncation, radius, sx, sy, sz, dist);
    assert Spans(sw, hi);
    FramesBox(sw, ps, lo, hi);
  }

  /** Fresh arrays of the shape of sw, reset to `truncation` with every colour
      `Clear`: the grid no point has been fused into yet. */
  method FreshGrid(sw: Sweep, ps: seq<Vec3>, cs: seq<Color>) returns (tsdf: array3<real>, colors: array3<Color>)
    requires sw.Valid()
    ensures fresh(tsdf) && fresh(colors) && Shaped(sw, tsdf, colors)
    ensures Fused(sw, tsdf, colors, ps, cs, 0)
  {
    tsdf, colors := Allocate(sw.sx, sw.sy, sw.sz, sw.truncation);
    FusedNone(sw, tsdf, colors, ps, cs);
  }

  /** The grids hold what the first n points, fused in order into a grid reset
      to `truncation` with every colour `Clear`, leave in them. */
  ghost predicate Fused(sw: Sweep, tsdf: array3<real>, colors: array3<Color>, ps: seq<Vec3>, cs: seq<Color>, n: nat)
    requires sw.Valid() && Shaped(sw, tsdf, colors) && n <= |ps| && n <= |cs|
    reads tsdf, colors
  {
    forall x, y, z :: 0 <= x < sw.sx && 0 <= y < sw.sy && 0 <= z < sw.sz ==>
      && tsdf[x, y, z] == MinFold(sw, ps, n, Vec3i(x, y, z))
      && colors[x, y, z] == ColorFold(sw, ps, cs, n, Vec3i(x, y, z), Clear)
  }

  /** A grid reset to `truncation` with every colour `Clear` holds what no point leaves. */
  lemma FusedNone(sw: Sweep, tsdf: array3<real>, colors: array3<Color>, ps: seq<Vec3>, cs: seq<Color>)
    requires sw.Valid() && Shaped(sw, tsdf, colors)
    requires forall x, y, z :: 0 <= x < sw.sx && 0 <= y < sw.sy && 0 <= z < sw.sz ==> tsdf[x, y, z] == sw.truncation
    requires forall x, y, z :: 0 <= x < sw.sx && 0 <= y < sw.sy && 0 <= z < sw.sz ==> colors[x, y, z] == Clear
    ensures Fused(sw, tsdf, colors, ps, cs, 0)
  {
  }

  /** The point loop of a rebuilding integrator: sweeps `ps[0]`, `ps[1]`, … in
      order, reading the colour of each point from `cs`, and stops at the first
      point without a colour (where the source faults on `pc_colors[i]`).
      Returns how many points were fused. */
  method FuseAll(tsdf: array3<real>, colors: array3<Color>, sw: Sweep, ps: seq<Vec3>, cs: seq<Color>) returns (n: nat)
    requires sw.Valid() && Shaped(sw, tsdf, colors)
    requires Fused(sw, tsdf, colors, ps, cs, 0)
    modifies tsdf, colors
    ensures n == if |cs| < |ps| then |cs| else |ps|
    ensures Fused(sw, tsdf, colors, ps, cs, n)
  {
    n := 0;
    while n < |ps|
      invariant n <= |ps| && n <= |cs|
      invariant Fused(sw, tsdf, colors, ps, cs, n)
    {
      if n >= |cs| {
        return;
      }
      SweepPoint(tsdf, colors, sw, ps[n], cs[n]);
      n := n + 1;
    }
  }
}
