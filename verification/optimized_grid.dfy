/** `MarchingCubesOptimized`: one grid of fixed size that persists across
    cycles. It is allocated once (`initializeTSDF`), placed at the minimum
    corner of the first non-null cloud, and every later cloud is fused into it
    with the weighted running average of `WeightedFusion`. The acceptance test
    of an update compares the candidate with the voxel `[x, z, y]`, the one with
    y and z swapped, rather than with the voxel being updated. */
module OptimizedGrid {
  import opened Geometry
  import opened MarchingTable
  import opened MinFusion
  import opened WeightedFusion
  import opened CubeMarch

  /** `new Color(0, 0, 1)`, the colour every voxel starts with. */
  const Blue: Color := Color(0.0, 0.0, 1.0, 1.0)

  /** `Color.black`. */
  const Black: Color := Color(0.0, 0.0, 0.0, 1.0)

  /** The side of the initial grid in world units. */
  const Extent: real := 10.0

  /** The value, colour and weight grids all have the shape `n × n × n`. */
  predicate Cubic(n: int, tsdf: array3<real>, colors: array3<Color>, weights: array3<real>)
  {
    && tsdf.Length0 == n && tsdf.Length1 == n && tsdf.Length2 == n
    && colors.Length0 == n && colors.Length1 == n && colors.Length2 == n
    && weights.Length0 == n && weights.Length1 == n && weights.Length2 == n
  }

  /** Every value lies in `[-truncation, truncation]` and every weight is non-negative. */
  ghost predicate Bounded(n: int, tsdf: array3<real>, weights: array3<real>, truncation: real)
    requires tsdf.Length0 == n && tsdf.Length1 == n && tsdf.Length2 == n
    requires weights.Length0 == n && weights.Length1 == n && weights.Length2 == n
    reads tsdf, weights
  {
    forall x, y, z :: 0 <= x < n && 0 <= y < n && 0 <= z < n ==>
      -truncation <= tsdf[x, y, z] <= truncation && weights[x, y, z] >= 0.0
  }

  /** The state of one voxel: its value, weight and colour. */
  datatype Voxel = Voxel(t: real, w: real, c: Color)

  /** Voxel (x, y, z) of the three grids. */
  ghost function VoxelAt(n: int, tsdf: array3<real>, colors: array3<Color>, weights: array3<real>, x: int, y: int, z: int): Voxel
    requires Cubic(n, tsdf, colors, weights) && 0 <= x < n && 0 <= y < n && 0 <= z < n
    reads tsdf, colors, weights
  {
    Voxel(tsdf[x, y, z], weights[x, y, z], colors[x, y, z])
  }

  /** A voxel after its acceptance test: when the candidate v was accepted,
      the fused value, one more unit of weight and the colour blended towards
      `col`; when it was not, the voxel as it was. */
  function Update(before: Voxel, accepted: bool, v: real, col: Color): Voxel
    requires before.w >= 0.0
  {
    if accepted then Voxel(Fuse(before.t, before.w, v), before.w + 1.0, Blend(before.c, col, before.w))
    else before
  }

  /** What the sweep of one point with colour `col` leaves in a voxel that held
      value t0, weight w0 and colour c0, given whether its acceptance test took
      the candidate v. */
  predicate Outcome(accepted: bool, t0: real, w0: real, c0: Color, v: real, col: Color, t: real, w: real, c: Color)
    requires w0 >= 0.0
  {
    Voxel(t, w, c) == Update(Voxel(t0, w0, c0), accepted, v, col)
  }

  /** Voxel c after the sweep of p (colour `col`), when it held `before` and its
      acceptance test compares the candidate with `ref`. */
  ghost function Settle(sw: Sweep, p: Vec3, col: Color, c: Vec3i, before: Voxel, ref: real): Voxel
    requires sw.Valid() && before.w >= 0.0
  {
    Update(before, sw.Touches(p, c) && sw.Candidate(p, c) < ref, sw.Candidate(p, c), col)
  }

  /** The value the acceptance test of voxel (x, y, z) reads in the sweep of p,
      from the states `here` of (x, y, z) and `mirror` of `[x, z, y]` before the
      sweep. When z < y the mirror's column comes first, so the test reads the
      mirror after its own update, whose test read (x, y, z) before the sweep;
      otherwise it reads the mirror before the sweep. */
  ghost function Ref(sw: Sweep, p: Vec3, col: Color, x: int, y: int, z: int, here: Voxel, mirror: Voxel): real
    requires sw.Valid() && here.w >= 0.0 && mirror.w >= 0.0
  {
    if z < y then Settle(sw, p, col, Vec3i(x, z, y), mirror, here.t).t else mirror.t
  }

  /** Voxel (x, y, z) after the whole sweep of p, from the states of (x, y, z)
      and of its mirror `[x, z, y]` before the sweep. */
  ghost function Step(sw: Sweep, p: Vec3, col: Color, x: int, y: int, z: int, here: Voxel, mirror: Voxel): Voxel
    requires sw.Valid() && here.w >= 0.0 && mirror.w >= 0.0
  {
    Settle(sw, p, col, Vec3i(x, y, z), here, Ref(sw, p, col, x, y, z, here, mirror))
  }

  /** One step of the innermost loop of the sweep of p, at a voxel (x, y, z)
      inside the grid: the candidate is fused in when it is below the value of
      the voxel `[x, z, y]`, and no other voxel changes. */
  method FuseVoxel(tsdf: array3<real>, colors: array3<Color>, weights: array3<real>, sw: Sweep, p: Vec3, col: Color, x: int, y: int, z: int)
    requires sw.Valid() && sw.sy == sw.sx && sw.sz == sw.sx && Cubic(sw.sx, tsdf, colors, weights)
    requires tsdf != weights && Bounded(sw.sx, tsdf, weights, sw.truncation)
    requires 0 <= x < sw.sx && 0 <= y < sw.sx && 0 <= z < sw.sx
    modifies tsdf, colors, weights
    ensures Bounded(sw.sx, tsdf, weights, sw.truncation)
    ensures Outcome(sw.Candidate(p, Vec3i(x, y, z)) < old(tsdf[x, z, y]),
                    old(tsdf[x, y, z]), old(weights[x, y, z]), old(colors[x, y, z]), sw.Candidate(p, Vec3i(x, y, z)), col,
                    tsdf[x, y, z], weights[x, y, z], colors[x, y, z])
    ensures forall i, j, k :: 0 <= i < sw.sx && 0 <= j < sw.sx && 0 <= k < sw.sx && (i, j, k) != (x, y, z) ==>
      tsdf[i, j, k] == old(tsdf[i, j, k]) && weights[i, j, k] == old(weights[i, j, k]) && colors[i, j, k] == old(colors[i, j, k])
  {
    var voxelPos := Add(sw.origin, Scale(Vec3(x as real, y as real, z as real), sw.resolution));
    var tsdfValue := Clamp(sw.dist(voxelPos, p) - sw.resolution, -sw.truncation, sw.truncation);
    assert tsdfValue == sw.Candidate(p, Vec3i(x, y, z));
    var wOld := weights[x, y, z];
    if tsdfValue < tsdf[x, z, y] {
      FuseInRange(tsdf[x, y, z], wOld, tsdfValue, sw.truncation);
      tsdf[x, y, z] := Fuse(tsdf[x, y, z], wOld, tsdfValue);
      colors[x, y, z] := Blend(colors[x, y, z], col, wOld);
      weights[x, y, z] := wOld + 1.0;
    }
  }

  /** The innermost loop of the sweep of p: offsets (dx, dy, -radius) …
      (dx, dy, radius) from p's home voxel. Only the voxels of that column
      change; each one's acceptance test compares its candidate with the value
      the voxel `[x, z, y]` held when the column started. */
  method FuseColumn(tsdf: array3<real>, colors: array3<Color>, weights: array3<real>, sw: Sweep, p: Vec3, col: Color, dx: int, dy: int)
    requires sw.Valid() && sw.sy == sw.sx && sw.sz == sw.sx && Cubic(sw.sx, tsdf, colors, weights)
    requires tsdf != weights && Bounded(sw.sx, tsdf, weights, sw.truncation)
    requires -sw.radius <= dx <= sw.radius && -sw.radius <= dy <= sw.radius
    modifies tsdf, colors, weights
    ensures Bounded(sw.sx, tsdf, weights, sw.truncation)
    ensures forall x, y, z :: 0 <= x < sw.sx && 0 <= y < sw.sx && 0 <= z < sw.sx ==>
      Outcome(x == sw.Home(p).x + dx && y == sw.Home(p).y + dy && sw.Touches(p, Vec3i(x, y, z))
                && sw.Candidate(p, Vec3i(x, y, z)) < old(tsdf[x, z, y]),
              old(tsdf[x, y, z]), old(weights[x, y, z]), old(colors[x, y, z]), sw.Candidate(p, Vec3i(x, y, z)), col,
              tsdf[x, y, z], weights[x, y, z], colors[x, y, z])
  {
    var r := sw.radius;
    var h := sw.Home(p);
    var x, y := h.x + dx, h.y + dy;
    for dz := -r to r + 1
      invariant Bounded(sw.sx, tsdf, weights, sw.truncation)
      invariant forall a, b, c :: 0 <= a < sw.sx && 0 <= b < sw.sx && 0 <= c < sw.sx && (a != x || b != y) ==>
        tsdf[a, b, c] == old(tsdf[a, b, c]) && weights[a, b, c] == old(weights[a, b, c]) && colors[a, b, c] == old(colors[a, b, c])
      invariant 0 <= x < sw.sx && 0 <= y < sw.sx ==> forall c :: 0 <= c < sw.sx ==>
        Outcome(-r <= c - h.z < dz && sw.Candidate(p, Vec3i(x, y, c)) < old(tsdf[x, c, y]),
                old(tsdf[x, y, c]), old(weights[x, y, c]), old(colors[x, y, c]), sw.Candidate(p, Vec3i(x, y, c)), col,
                tsdf[x, y, c], weights[x, y, c], colors[x, y, c])
    {
      var z := h.z + dz;
      if x < 0 || y < 0 || z < 0 || x >= sw.sx || y >= sw.sy || z >= sw.sz {
        continue;
      }
      // Neither this voxel nor its mirror `[x, z, y]` has been written yet in this column.
      assert tsdf[x, y, z] == old(tsdf[x, y, z]) && weights[x, y, z] == old(weights[x, y, z]) && colors[x, y, z] == old(colors[x, y, z]);
      assert tsdf[x, z, y] == old(tsdf[x, z, y]);
      FuseVoxel(tsdf, colors, weights, sw, p, col, x, y, z);
    }
    forall a, b, c | 0 <= a < sw.sx && 0 <= b < sw.sx && 0 <= c < sw.sx
      ensures Outcome(a == h.x + dx && b == h.y + dy && sw.Touches(p, Vec3i(a, b, c))
                        && sw.Candidate(p, Vec3i(a, b, c)) < old(tsdf[a, c, b]),
                      old(tsdf[a, b, c]), old(weights[a, b, c]), old(colors[a, b, c]), sw.Candidate(p, Vec3i(a, b, c)), col,
                      tsdf[a, b, c], weights[a, b, c], colors[a, b, c])
    {
    }
  }

  /** The sweep of one point p with colour `col` over the neighbourhood of
      radius `radius` around its home voxel, in the loop order dx, dy, dz. A
      voxel (x, y, z) the sweep reaches accepts its candidate when the candidate
      is below the value the test reads at `[x, z, y]`: that voxel's value after
      the sweep when z < y (its column comes first), and its value before the
      sweep otherwise. Values stay in [-T, T] and weights non-negative. */
  method FusePoint(tsdf: array3<real>, colors: array3<Color>, weights: array3<real>, sw: Sweep, p: Vec3, col: Color)
    requires sw.Valid() && sw.sy == sw.sx && sw.sz == sw.sx && Cubic(sw.sx, tsdf, colors, weights)
    requires tsdf != weights && Bounded(sw.sx, tsdf, weights, sw.truncation)
    modifies tsdf, colors, weights
    ensures Bounded(sw.sx, tsdf, weights, sw.truncation)
    ensures forall x, y, z :: 0 <= x < sw.sx && 0 <= y < sw.sx && 0 <= z < sw.sx ==>
      Outcome(sw.Touches(p, Vec3i(x, y, z))
                && sw.Candidate(p, Vec3i(x, y, z)) < (if z < y then tsdf[x, z, y] else old(tsdf[x, z, y])),
              old(tsdf[x, y, z]), old(weights[x, y, z]), old(colors[x, y, z]), sw.Candidate(p, Vec3i(x, y, z)), col,
              tsdf[x, y, z], weights[x, y, z], colors[x, y, z])
    ensures forall x, y, z :: 0 <= x < sw.sx && 0 <= y < sw.sx && 0 <= z < sw.sx ==>
      VoxelAt(sw.sx, tsdf, colors, weights, x, y, z)
        == Step(sw, p, col, x, y, z, old(VoxelAt(sw.sx, tsdf, colors, weights, x, y, z)), old(VoxelAt(sw.sx, tsdf, colors, weights, x, z, y)))
  {
    var r := sw.radius;
    var h := sw.Home(p);
    for dx := -r to r + 1
      invariant Bounded(sw.sx, tsdf, weights, sw.truncation)
      invariant forall x, y, z :: 0 <= x < sw.sx && 0 <= y < sw.sx && 0 <= z < sw.sx ==>
        Outcome(x - h.x < dx && sw.Touches(p, Vec3i(x, y, z))
                  && sw.Candidate(p, Vec3i(x, y, z)) < (if z < y then tsdf[x, z, y] else old(tsdf[x, z, y])),
                old(tsdf[x, y, z]), old(weights[x, y, z]), old(colors[x, y, z]), sw.Candidate(p, Vec3i(x, y, z)), col,
                tsdf[x, y, z], weights[x, y, z], colors[x, y, z])
    {
      for dy := -r to r + 1
        invariant Bounded(sw.sx, tsdf, weights, sw.truncation)
        invariant forall x, y, z :: 0 <= x < sw.sx && 0 <= y < sw.sx && 0 <= z < sw.sx ==>
          Outcome((x - h.x < dx || (x - h.x == dx && y - h.y < dy)) && sw.Touches(p, Vec3i(x, y, z))
                    && sw.Candidate(p, Vec3i(x, y, z)) < (if z < y then tsdf[x, z, y] else old(tsdf[x, z, y])),
                  old(tsdf[x, y, z]), old(weights[x, y, z]), old(colors[x, y, z]), sw.Candidate(p, Vec3i(x, y, z)), col,
                  tsdf[x, y, z], weights[x, y, z], colors[x, y, z])
      {
        FuseColumn(tsdf, colors, weights, sw, p, col, dx, dy);
      }
    }
    forall x, y, z | 0 <= x < sw.sx && 0 <= y < sw.sx && 0 <= z < sw.sx
      ensures VoxelAt(sw.sx, tsdf, colors, weights, x, y, z)
        == Step(sw, p, col, x, y, z, old(VoxelAt(sw.sx, tsdf, colors, weights, x, y, z)), old(VoxelAt(sw.sx, tsdf, colors, weights, x, z, y)))
    {
      // The test of (x, y, z) reads the mirror after the sweep when z < y, and
      // the mirror's own test then read (x, y, z) before the sweep.
      assert z < y ==> tsdf[x, z, y] == Settle(sw, p, col, Vec3i(x, z, y), old(VoxelAt(sw.sx, tsdf, colors, weights, x, z, y)), old(tsdf[x, y, z])).t;
    }
  }

  /** Voxel (x, y, z) holds its state before the first cycle: value `truncation`, colour blue, weight 0. */
  ghost predicate Blank(tsdf: array3<real>, colors: array3<Color>, weights: array3<real>, truncation: real, x: int, y: int, z: int)
    requires 0 <= x < tsdf.Length0 && 0 <= y < tsdf.Length1 && 0 <= z < tsdf.Length2
    requires 0 <= x < colors.Length0 && 0 <= y < colors.Length1 && 0 <= z < colors.Length2
    requires 0 <= x < weights.Length0 && 0 <= y < weights.Length1 && 0 <= z < weights.Length2
    reads tsdf, colors, weights
  {
    tsdf[x, y, z] == truncation && colors[x, y, z] == Blue && weights[x, y, z] == 0.0
  }

  /** The loop of `initializeTSDF`: every voxel of the three grids takes value
      `truncation`, colour blue and weight 0. */
  method Fill(n: int, tsdf: array3<real>, colors: array3<Color>, weights: array3<real>, truncation: real)
    requires Cubic(n, tsdf, colors, weights) && tsdf != weights
    modifies tsdf, colors, weights
    ensures forall x, y, z :: 0 <= x < n && 0 <= y < n && 0 <= z < n ==> Blank(tsdf, colors, weights, truncation, x, y, z)
    ensures truncation >= 0.0 ==> Bounded(n, tsdf, weights, truncation)
  {
    for x := 0 to n
      invariant forall i, j, k :: 0 <= i < x && 0 <= j < n && 0 <= k < n ==>
        tsdf[i, j, k] == truncation && colors[i, j, k] == Blue && weights[i, j, k] == 0.0
    {
      for y := 0 to n
        invariant forall i, j, k :: 0 <= i < x && 0 <= j < n && 0 <= k < n ==>
          tsdf[i, j, k] == truncation && colors[i, j, k] == Blue && weights[i, j, k] == 0.0
        invariant forall j, k :: 0 <= j < y && 0 <= k < n ==>
          tsdf[x, j, k] == truncation && colors[x, j, k] == Blue && weights[x, j, k] == 0.0
      {
        for z := 0 to n
          invariant forall i, j, k :: 0 <= i < x && 0 <= j < n && 0 <= k < n ==>
            tsdf[i, j, k] == truncation && colors[i, j, k] == Blue && weights[i, j, k] == 0.0
          invariant forall j, k :: 0 <= j < y && 0 <= k < n ==>
            tsdf[x, j, k] == truncation && colors[x, j, k] == Blue && weights[x, j, k] == 0.0
          invariant forall k :: 0 <= k < z ==>
            tsdf[x, y, k] == truncation && colors[x, y, k] == Blue && weights[x, y, k] == 0.0
        {
          tsdf[x, y, z] := truncation;
          colors[x, y, z] := Blue;
          weights[x, y, z] := 0.0;
        }
      }
    }
  }

  /** Some point among the first n touches voxel c. */
  ghost predicate Reached(sw: Sweep, ps: seq<Vec3>, n: nat, c: Vec3i)
    requires sw.Valid() && n <= |ps|
  {
    exists i :: 0 <= i < n && sw.Touches(ps[i], c)
  }

  /** Between the two states every weight grew by at most n, and every voxel
      none of the first n points reaches kept its value, colour and weight. */
  twostate predicate Integrated(sw: Sweep, ps: seq<Vec3>, n: nat, tsdf: array3<real>, colors: array3<Color>, weights: array3<real>)
    requires sw.Valid() && n <= |ps| && Cubic(sw.sx, tsdf, colors, weights)
    reads tsdf, colors, weights
  {
    && (forall x, y, z :: 0 <= x < sw.sx && 0 <= y < sw.sx && 0 <= z < sw.sx ==>
          old(weights[x, y, z]) <= weights[x, y, z] <= old(weights[x, y, z]) + n as real)
    && (forall x, y, z :: 0 <= x < sw.sx && 0 <= y < sw.sx && 0 <= z < sw.sx && !Reached(sw, ps, n, Vec3i(x, y, z)) ==>
          && tsdf[x, y, z] == old(tsdf[x, y, z]) && colors[x, y, z] == old(colors[x, y, z])
          && weights[x, y, z] == old(weights[x, y, z]))
  }

  /** The voxels of the three grids at one moment, indexed `[x][y][z]`. */
  type Snapshot = seq<seq<seq<Voxel>>>

  /** s is an n-by-n-by-n snapshot. */
  ghost predicate Shaped(s: Snapshot, n: int)
  {
    && |s| == n
    && (forall x :: 0 <= x < n ==> |s[x]| == n)
    && (forall x, y :: 0 <= x < n && 0 <= y < n ==> |s[x][y]| == n)
  }

  /** Every weight of the snapshot is non-negative. */
  ghost predicate Weighed(s: Snapshot, n: int)
    requires Shaped(s, n)
  {
    forall x, y, z :: 0 <= x < n && 0 <= y < n && 0 <= z < n ==> s[x][y][z].w >= 0.0
  }

  /** The present contents of the three grids. */
  ghost function Snap(n: int, tsdf: array3<real>, colors: array3<Color>, weights: array3<real>): (s: Snapshot)
    requires Cubic(n, tsdf, colors, weights)
    reads tsdf, colors, weights
    ensures Shaped(s, n)
    ensures forall x, y, z :: 0 <= x < n && 0 <= y < n && 0 <= z < n ==>
      s[x][y][z] == VoxelAt(n, tsdf, colors, weights, x, y, z)
  {
    seq(n, x requires 0 <= x < n reads tsdf, colors, weights =>
      seq(n, y requires 0 <= y < n reads tsdf, colors, weights =>
        seq(n, z requires 0 <= z < n reads tsdf, colors, weights => VoxelAt(n, tsdf, colors, weights, x, y, z))))
  }

  /** Voxel (x, y, z) after the sweeps of the first n points `vs[i]` with
      colours `cs[i]`, in order, over the grids whose contents were s0. */
  ghost function Weighted(s0: Snapshot, sw: Sweep, vs: seq<Vec3>, cs: seq<Color>, n: nat, x: int, y: int, z: int): (r: Voxel)
    requires sw.Valid() && Shaped(s0, sw.sx) && Weighed(s0, sw.sx)
    requires n <= |vs| && n <= |cs| && 0 <= x < sw.sx && 0 <= y < sw.sx && 0 <= z < sw.sx
    ensures r.w >= 0.0
    decreases n
  {
    if n == 0 then s0[x][y][z]
    else
      Step(sw, vs[n - 1], cs[n - 1], x, y, z,
           Weighted(s0, sw, vs, cs, n - 1, x, y, z), Weighted(s0, sw, vs, cs, n - 1, x, z, y))
  }

  /** The candidates voxel (x, y, z) accepted from the first n points, in order. */
  ghost function Accepted(s0: Snapshot, sw: Sweep, vs: seq<Vec3>, cs: seq<Color>, n: nat, x: int, y: int, z: int): seq<real>
    requires sw.Valid() && Shaped(s0, sw.sx) && Weighed(s0, sw.sx)
    requires n <= |vs| && n <= |cs| && 0 <= x < sw.sx && 0 <= y < sw.sx && 0 <= z < sw.sx
    decreases n
  {
    if n == 0 then []
    else
      var p, c := vs[n - 1], Vec3i(x, y, z);
      var ref := Ref(sw, p, cs[n - 1], x, y, z, Weighted(s0, sw, vs, cs, n - 1, x, y, z), Weighted(s0, sw, vs, cs, n - 1, x, z, y));
      Accepted(s0, sw, vs, cs, n - 1, x, y, z) + (if sw.Touches(p, c) && sw.Candidate(p, c) < ref then [sw.Candidate(p, c)] else [])
  }

  /** The weight of a voxel grows by exactly one per accepted candidate, so by
      at most one per point. */
  lemma {:induction false} WeightedCounts(s0: Snapshot, sw: Sweep, vs: seq<Vec3>, cs: seq<Color>, n: nat, x: int, y: int, z: int)
    requires sw.Valid() && Shaped(s0, sw.sx) && Weighed(s0, sw.sx)
    requires n <= |vs| && n <= |cs| && 0 <= x < sw.sx && 0 <= y < sw.sx && 0 <= z < sw.sx
    ensures Weighted(s0, sw, vs, cs, n, x, y, z).w == s0[x][y][z].w + |Accepted(s0, sw, vs, cs, n, x, y, z)| as real
    ensures |Accepted(s0, sw, vs, cs, n, x, y, z)| <= n
  {
    if n > 0 {
      WeightedCounts(s0, sw, vs, cs, n - 1, x, y, z);
    }
  }

  /** A voxel that starts with weight 0 holds the running average of the
      candidates it accepted, with their count as its weight; once it accepted
      any, its value is their mean. */
  lemma {:induction false} WeightedIsAccumulate(s0: Snapshot, sw: Sweep, vs: seq<Vec3>, cs: seq<Color>, n: nat, x: int, y: int, z: int)
    requires sw.Valid() && Shaped(s0, sw.sx) && Weighed(s0, sw.sx)
    requires n <= |vs| && n <= |cs| && 0 <= x < sw.sx && 0 <= y < sw.sx && 0 <= z < sw.sx
    requires s0[x][y][z].w == 0.0
    ensures var r := Weighted(s0, sw, vs, cs, n, x, y, z);
      (r.t, r.w) == Accumulate(s0[x][y][z].t, Accepted(s0, sw, vs, cs, n, x, y, z))
    ensures |Accepted(s0, sw, vs, cs, n, x, y, z)| > 0 ==>
      Weighted(s0, sw, vs, cs, n, x, y, z).t == Mean(Accepted(s0, sw, vs, cs, n, x, y, z))
  {
    var a := Accepted(s0, sw, vs, cs, n, x, y, z);
    if n > 0 {
      WeightedIsAccumulate(s0, sw, vs, cs, n - 1, x, y, z);
      var b := Accepted(s0, sw, vs, cs, n - 1, x, y, z);
      if |a| > |b| {
        assert a[..|a| - 1] == b;
      } else {
        assert a == b;
      }
    }
    if |a| > 0 {
      AccumulateIsMean(s0[x][y][z].t, a);
    }
  }

  /** A voxel no point among the first n reaches keeps its state and accepts
      nothing. */
  lemma {:induction false} WeightedUnreached(s0: Snapshot, sw: Sweep, vs: seq<Vec3>, cs: seq<Color>, n: nat, x: int, y: int, z: int)
    requires sw.Valid() && Shaped(s0, sw.sx) && Weighed(s0, sw.sx)
    requires n <= |vs| && n <= |cs| && 0 <= x < sw.sx && 0 <= y < sw.sx && 0 <= z < sw.sx
    requires !Reached(sw, vs, n, Vec3i(x, y, z))
    ensures Weighted(s0, sw, vs, cs, n, x, y, z) == s0[x][y][z]
    ensures Accepted(s0, sw, vs, cs, n, x, y, z) == []
  {
    if n > 0 {
      assert !sw.Touches(vs[n - 1], Vec3i(x, y, z));
      WeightedUnreached(s0, sw, vs, cs, n - 1, x, y, z);
    }
  }

  /** What `Integrated` states, for the fold: from s0 to the fold s1 of the
      first n points, every weight grows by at most n, and every voxel none of
      them reaches keeps its state. */
  lemma FoldIntegrated(s0: Snapshot, s1: Snapshot, sw: Sweep, vs: seq<Vec3>, cs: seq<Color>, n: nat)
    requires sw.Valid() && Shaped(s0, sw.sx) && Weighed(s0, sw.sx) && Shaped(s1, sw.sx) && n <= |vs| && n <= |cs|
    requires forall x, y, z :: 0 <= x < sw.sx && 0 <= y < sw.sx && 0 <= z < sw.sx ==>
      s1[x][y][z] == Weighted(s0, sw, vs, cs, n, x, y, z)
    ensures forall x, y, z :: 0 <= x < sw.sx && 0 <= y < sw.sx && 0 <= z < sw.sx ==>
      s0[x][y][z].w <= s1[x][y][z].w <= s0[x][y][z].w + n as real
    ensures forall x, y, z :: 0 <= x < sw.sx && 0 <= y < sw.sx && 0 <= z < sw.sx && !Reached(sw, vs, n, Vec3i(x, y, z)) ==>
      s1[x][y][z] == s0[x][y][z]
  {
    forall x, y, z | 0 <= x < sw.sx && 0 <= y < sw.sx && 0 <= z < sw.sx
      ensures s0[x][y][z].w <= s1[x][y][z].w <= s0[x][y][z].w + n as real
      ensures !Reached(sw, vs, n, Vec3i(x, y, z)) ==> s1[x][y][z] == s0[x][y][z]
    {
      WeightedCounts(s0, sw, vs, cs, n, x, y, z);
      if !Reached(sw, vs, n, Vec3i(x, y, z)) {
        WeightedUnreached(s0, sw, vs, cs, n, x, y, z);
      }
    }
  }

  /** The grids hold the fold of the first n points over s0 at every voxel. */
  ghost predicate Folded(s0: Snapshot, sw: Sweep, vs: seq<Vec3>, cs: seq<Color>, n: nat,
                         tsdf: array3<real>, colors: array3<Color>, weights: array3<real>)
    requires sw.Valid() && Shaped(s0, sw.sx) && Weighed(s0, sw.sx) && n <= |vs| && n <= |cs|
    requires Cubic(sw.sx, tsdf, colors, weights)
    reads tsdf, colors, weights
  {
    forall x, y, z :: 0 <= x < sw.sx && 0 <= y < sw.sx && 0 <= z < sw.sx ==>
      VoxelAt(sw.sx, tsdf, colors, weights, x, y, z) == Weighted(s0, sw, vs, cs, n, x, y, z)
  }

  /** The point loop of `CreateTSDF`: the points are fused in order with
      `FusePoint` until the colours run out (`pc_colors[i]` faults on the first
      point without one); n is the number of points fused. */
  method FuseCloud(tsdf: array3<real>, colors: array3<Color>, weights: array3<real>, sw: Sweep, vs: seq<Vec3>, cs: seq<Color>)
    returns (n: nat)
    requires sw.Valid() && sw.sy == sw.sx && sw.sz == sw.sx && Cubic(sw.sx, tsdf, colors, weights)
    requires tsdf != weights && Bounded(sw.sx, tsdf, weights, sw.truncation)
    modifies tsdf, colors, weights
    ensures n == if |cs| < |vs| then |cs| else |vs|
    ensures Bounded(sw.sx, tsdf, weights, sw.truncation)
    ensures Integrated(sw, vs, n, tsdf, colors, weights)
    ensures Folded(old(Snap(sw.sx, tsdf, colors, weights)), sw, vs, cs, n, tsdf, colors, weights)
  {
    ghost var s0 := Snap(sw.sx, tsdf, colors, weights);
    n := if |cs| < |vs| then |cs| else |vs|;
    for i := 0 to n
      invariant Bounded(sw.sx, tsdf, weights, sw.truncation)
      invariant Folded(s0, sw, vs, cs, i, tsdf, colors, weights)
    {
      label before:
      FusePoint(tsdf, colors, weights, sw, vs[i], cs[i]);
      forall x, y, z | 0 <= x < sw.sx && 0 <= y < sw.sx && 0 <= z < sw.sx
        ensures VoxelAt(sw.sx, tsdf, colors, weights, x, y, z) == Weighted(s0, sw, vs, cs, i + 1, x, y, z)
      {
        assert old@before(VoxelAt(sw.sx, tsdf, colors, weights, x, y, z)) == Weighted(s0, sw, vs, cs, i, x, y, z);
        assert old@before(VoxelAt(sw.sx, tsdf, colors, weights, x, z, y)) == Weighted(s0, sw, vs, cs, i, x, z, y);
      }
    }
    FoldIntegrated(s0, Snap(sw.sx, tsdf, colors, weights), sw, vs, cs, n);
  }

  class MarchingCubesOptimized {
    /** Editor settings and the engine services the component uses: `dist` is
        `Vector3.Distance`, `tables` the static `MarchingTable`. */
    const resolution: real
    const tsdfThreshold: real
    const truncation: real
    const dist: (Vec3, Vec3) -> real
    const tables: Tables

    var tsdf: array3<real>
    var colorGrid: array3<Color>
    var weightGrid: array3<real>
    var tsdfOrigin: Vec3
    var sizeX: int
    var sizeY: int
    var sizeZ: int
    var tsdfInitialized: bool
    var vertices: seq<Vec3>
    var triangles: seq<int>
    var vertexColors: seq<Color>

    /** The three grids are distinct cubes of `sizeX` voxels a side, as
        `initializeTSDF` made them (`copyTSDF`, the only code that resizes them,
        never gets that far). */
    ghost predicate Valid()
      reads this`tsdf, this`colorGrid, this`weightGrid, this`sizeX, this`sizeY, this`sizeZ
    {
      && resolution > 0.0 && truncation >= 0.0 && ValidTables(tables)
      && sizeX >= 1 && sizeY == sizeX && sizeZ == sizeX
      && Cubic(sizeX, tsdf, colorGrid, weightGrid) && tsdf != weightGrid
    }

    /** Every stored value lies in [-truncation, truncation] and every weight is non-negative. */
    ghost predicate Stored()
      requires Valid()
      reads this`tsdf, this`colorGrid, this`weightGrid, this`sizeX, this`sizeY, this`sizeZ, tsdf, weightGrid
    {
      Bounded(sizeX, tsdf, weightGrid, truncation)
    }

    /** The integration pass over the grid: radius `CeilToInt(truncation / resolution)`. */
    function Pass(): (sw: Sweep)
      reads this`tsdfOrigin, this`sizeX, this`sizeY, this`sizeZ
      ensures sw.origin == tsdfOrigin && sw.resolution == resolution && sw.truncation == truncation
      ensures sw.sx == sizeX && sw.sy == sizeY && sw.sz == sizeZ && sw.dist == dist
      ensures sw.radius >= 0
    {
      var radius := if resolution > 0.0 && truncation >= 0.0 then CeilToInt(truncation / resolution) else 0;
      assert radius >= 0 by {
        if resolution > 0.0 && truncation >= 0.0 {
          assert truncation / resolution >= 0.0;
        }
      }
      Sweep(tsdfOrigin, resolution, truncation, radius, sizeX, sizeY, sizeZ, dist)
    }

    /** The mesh the three lists hold. */
    function Current(): Mesh
      reads this`vertices, this`triangles, this`vertexColors
    {
      Mesh(vertices, triangles, vertexColors)
    }

    /** The component after `Start`: the grid of `initializeTSDF`, no origin
        yet and no mesh. */
    constructor (resolution: real, tsdfThreshold: real, truncation: real, dist: (Vec3, Vec3) -> real, tables: Tables)
      requires resolution > 0.0 && truncation >= 0.0 && ValidTables(tables)
      ensures Valid() && Stored() && !tsdfInitialized && Current() == EmptyMesh
      ensures this.resolution == resolution && this.tsdfThreshold == tsdfThreshold && this.truncation == truncation
      ensures this.dist == dist && this.tables == tables
      ensures sizeX == CeilToInt(Extent / resolution) + 1
      ensures forall x, y, z :: 0 <= x < sizeX && 0 <= y < sizeX && 0 <= z < sizeX ==>
        Blank(tsdf, colorGrid, weightGrid, truncation, x, y, z)
    {
      this.resolution := resolution;
      this.tsdfThreshold := tsdfThreshold;
      this.truncation := truncation;
      this.dist := dist;
      this.tables := tables;
      tsdf := new real[0, 0, 0];
      colorGrid := new Color[0, 0, 0];
      weightGrid := new real[0, 0, 0];
      tsdfOrigin := Vec3(0.0, 0.0, 0.0);
      sizeX, sizeY, sizeZ := 0, 0, 0;
      tsdfInitialized := false;
      vertices, triangles, vertexColors := [], [], [];
      new;
      InitializeTSDF();
    }

    /** `initializeTSDF`: a grid of `CeilToInt(10 / resolution) + 1` voxels on
        every axis, every voxel holding `truncation`, blue and weight 0. */
    method InitializeTSDF()
      requires resolution > 0.0 && truncation >= 0.0 && ValidTables(tables)
      modifies this`sizeX, this`sizeY, this`sizeZ, this`tsdf, this`colorGrid, this`weightGrid
      ensures Valid() && Stored() && fresh(tsdf) && fresh(colorGrid) && fresh(weightGrid)
      ensures sizeX == CeilToInt(Extent / resolution) + 1
      ensures forall x, y, z :: 0 <= x < sizeX && 0 <= y < sizeX && 0 <= z < sizeX ==>
        Blank(tsdf, colorGrid, weightGrid, truncation, x, y, z)
    {
      assert Extent / resolution > 0.0;
      var n := CeilToInt(Extent / resolution) + 1;
      var t := new real[n, n, n];
      var c := new Color[n, n, n];
      var w := new real[n, n, n];
      Fill(n, t, c, w, truncation);
      sizeX, sizeY, sizeZ := n, n, n;
      tsdf, colorGrid, weightGrid := t, c, w;
    }

    /** A grid on the box from lo to hi needs more than 10 voxels beyond the
        current size on some axis. */
    ghost predicate Outgrows(lo: Vec3, hi: Vec3)
      requires resolution > 0.0 && Below(lo, hi)
      reads this`sizeX, this`sizeY, this`sizeZ
    {
      || GridDim(hi.x - lo.x, resolution) > sizeX + 10
      || GridDim(hi.y - lo.y, resolution) > sizeY + 10
      || GridDim(hi.z - lo.z, resolution) > sizeZ + 10
    }

    /** `copyTSDF` (no caller runs it). An empty cloud faults on `pc_vertices[0]`.
        Otherwise the origin moves to the minimum corner of the cloud while the
        grid stays as it is, and when the cloud's box outgrows the grid by more
        than 10 voxels on some axis the copy faults: its first voxel outside the
        old grid is written through the old `weightGrid`. So the grid is never
        replaced and only the origin can change. */
    method CopyTSDF(pcVertices: seq<Vec3>) returns (fault: bool)
      requires Valid()
      modifies this`tsdfOrigin
      ensures |pcVertices| == 0 ==> fault && tsdfOrigin == old(tsdfOrigin)
      ensures |pcVertices| > 0 ==> IsMinCorner(tsdfOrigin, pcVertices)
      ensures |pcVertices| > 0 ==> forall hi :: IsMaxCorner(hi, pcVertices) ==>
        Below(tsdfOrigin, hi) && (fault <==> Outgrows(tsdfOrigin, hi))
    {
      if |pcVertices| == 0 {
        return true;
      }
      var minPoint, maxPoint := Bounds(pcVertices);
      tsdfOrigin := minPoint;
      var size := Sub(maxPoint, minPoint);
      var sizeXNew := GridDim(size.x, resolution);
      var sizeYNew := GridDim(size.y, resolution);
      var sizeZNew := GridDim(size.z, resolution);
      var grows := sizeXNew > sizeX + 10 || sizeYNew > sizeY + 10 || sizeZNew > sizeZ + 10;
      assert grows == Outgrows(minPoint, maxPoint);
      forall hi | IsMaxCorner(hi, pcVertices)
        ensures Below(tsdfOrigin, hi) && (grows <==> Outgrows(tsdfOrigin, hi))
      {
        MaxCornerUnique(hi, maxPoint, pcVertices);
      }
      if grows {
        fault := CopyGrid(sizeXNew, sizeYNew, sizeZNew);
        return;
      }
      return grows;
    }

    /** The copy loop of `copyTSDF` into grids of `sizeXNew × sizeYNew × sizeZNew`
        voxels, one of them more than 10 beyond the current size: it faults on
        the first voxel outside the old grid, whose zero weight it writes into
        the old `weightGrid`. The code after the loop, which installs the new
        grids and sizes, is never reached. */
    method CopyGrid(sizeXNew: int, sizeYNew: int, sizeZNew: int) returns (fault: bool)
      requires Valid() && sizeXNew >= 1 && sizeYNew >= 1 && sizeZNew >= 1
      requires sizeXNew > sizeX + 10 || sizeYNew > sizeY + 10 || sizeZNew > sizeZ + 10
      ensures fault
    {
      var tsdfNew := new real[sizeXNew, sizeYNew, sizeZNew];
      var weightGridNew := new real[sizeXNew, sizeYNew, sizeZNew];
      var colorGridNew := new Color[sizeXNew, sizeYNew, sizeZNew];
      for x := 0 to sizeXNew
        invariant x <= sizeX
        invariant x > 0 ==> sizeYNew <= sizeY && sizeZNew <= sizeZ
      {
        for y := 0 to sizeYNew
          invariant y > 0 ==> x < sizeX && y <= sizeY && sizeZNew <= sizeZ
        {
          for z := 0 to sizeZNew
            invariant z > 0 ==> x < sizeX && y < sizeY && z <= sizeZ
          {
            if x >= sizeX || y >= sizeY || z >= sizeZ {
              tsdfNew[x, y, z] := truncation;
              colorGridNew[x, y, z] := Black;
              // `weightGrid[x, y, z]` is the old grid, and (x, y, z) lies outside it.
              return true;
            } else {
              tsdfNew[x, y, z] := tsdf[x, y, z];
              colorGridNew[x, y, z] := colorGrid[x, y, z];
              weightGridNew[x, y, z] := weightGrid[x, y, z];
            }
          }
        }
      }
      // Every voxel of the new grid was inside the old one: the box did not outgrow it.
      assert false;
    }

    /** The contents of the grid as the extraction reads them. */
    function Contents(): (g: Grid)
      requires Valid()
      reads this`tsdf, this`colorGrid, this`weightGrid, this`tsdfOrigin, this`sizeX, this`sizeY, this`sizeZ, tsdf, colorGrid
      ensures g.Valid()
    {
      Capture(tsdf, colorGrid, sizeX, sizeY, sizeZ, tsdfOrigin, resolution, tsdfThreshold)
    }

    /** The lists hold the mesh extracted from the current grid, each vertex its own index. */
    ghost predicate Extracted()
      requires Valid()
      reads this`tsdf, this`colorGrid, this`weightGrid, this`tsdfOrigin, this`sizeX, this`sizeY, this`sizeZ
      reads this`vertices, this`triangles, this`vertexColors, tsdf, colorGrid
    {
      Current() == Extend(EmptyMesh, AllOut(Contents(), tables)) && Lockstep(Current())
    }

    /** `CreateTSDF`, one cycle. A null array returns at once. The first cycle
        with a cloud places the grid at the cloud's minimum corner (an empty
        first cloud faults on `pc_vertices[0]` before anything changes); later
        cycles keep that origin. The rest is `Integrate`: every voxel then
        holds the fold `Weighted` of the fused points over its value, colour
        and weight before the cycle. A colour array shorter than the vertex
        array faults on the first point without a colour, leaving the mesh as
        it was; a complete pass ends with the extraction. */
    method CreateTSDF(pcVertices: Option<seq<Vec3>>, pcColors: Option<seq<Color>>) returns (fault: bool)
      requires Valid() && Stored()
      modifies this`tsdfOrigin, this`tsdfInitialized, this`vertices, this`triangles, this`vertexColors
      modifies tsdf, colorGrid, weightGrid
      ensures Valid() && Stored()
      ensures pcVertices.None? || pcColors.None? ==> !fault && unchanged(this) && unchanged(tsdf, colorGrid, weightGrid)
      ensures pcVertices.Some? && pcColors.Some? && !old(tsdfInitialized) && |pcVertices.value| == 0 ==>
        fault && unchanged(this) && unchanged(tsdf, colorGrid, weightGrid)
      ensures pcVertices.Some? && pcColors.Some? && (old(tsdfInitialized) || |pcVertices.value| > 0) ==>
        && tsdfInitialized
        && (if old(tsdfInitialized) then tsdfOrigin == old(tsdfOrigin) else IsMinCorner(tsdfOrigin, pcVertices.value))
        && fault == (|pcColors.value| < |pcVertices.value|)
        && Folded(old(Snap(sizeX, tsdf, colorGrid, weightGrid)), Pass(), pcVertices.value, pcColors.value,
                  if fault then |pcColors.value| else |pcVertices.value|, tsdf, colorGrid, weightGrid)
        && (fault ==> Current() == old(Current()))
        && (!fault ==> Extracted())
    {
      if pcVertices.None? || pcColors.None? {
        return false;
      }
      var vs, cs := pcVertices.value, pcColors.value;
      ghost var s0 := Snap(sizeX, tsdf, colorGrid, weightGrid);
      if !tsdfInitialized {
        if |vs| == 0 {
          return true;
        }
        var minPoint, maxPoint := Bounds(vs);
        tsdfOrigin := minPoint;
        tsdfInitialized := true;
      }
      // Placing the grid changes no voxel.
      assert Snap(sizeX, tsdf, colorGrid, weightGrid) == s0;
      fault := Integrate(vs, cs);
    }

    /** The second half of `CreateTSDF`, once the origin is set: the points are
        fused in order with the weighted rule of `FusePoint`, so every voxel
        holds the fold `Weighted` of the fused points over its state before;
        hence weights grow by at most one per fused point and voxels no fused
        point reaches keep value, colour and weight. A complete pass ends with
        the extraction. */
    method Integrate(vs: seq<Vec3>, cs: seq<Color>) returns (fault: bool)
      requires Valid() && Stored()
      modifies this`vertices, this`triangles, this`vertexColors, tsdf, colorGrid, weightGrid
      ensures Valid() && Stored()
      ensures fault == (|cs| < |vs|)
      ensures Integrated(Pass(), vs, if fault then |cs| else |vs|, tsdf, colorGrid, weightGrid)
      ensures Folded(old(Snap(sizeX, tsdf, colorGrid, weightGrid)), Pass(), vs, cs, if fault then |cs| else |vs|, tsdf, colorGrid, weightGrid)
      ensures fault ==> Current() == old(Current())
      ensures !fault ==> Extracted()
    {
      var n := FuseCloud(tsdf, colorGrid, weightGrid, Pass(), vs, cs);
      if n < |vs| {
        return true;
      }
      MarchCubes();
      return false;
    }

    /** `MarchCubes`: clears the lists and extracts the mesh of the grid. */
    method MarchCubes()
      requires Valid()
      modifies this`vertices, this`triangles, this`vertexColors
      ensures Extracted()
    {
      ClearMesh();
      var g := Contents();
      var m := CubeMarch.MarchCubes(g, tables, EmptyMesh);
      ExtendLockstep(EmptyMesh, AllOut(g, tables));
      vertices, triangles, vertexColors := m.vertices, m.triangles, m.colors;
    }

    /** `clearMesh`: empties the three lists. */
    method ClearMesh()
      modifies this`vertices, this`triangles, this`vertexColors
      ensures Current() == EmptyMesh
    {
      triangles, vertices, vertexColors := [], [], [];
    }
  }
}
