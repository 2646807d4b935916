/** The min-replace integration rule of the rebuilt grids: every point sweeps
    the voxels within Chebyshev distance `radius` of its home voxel, computes a
    candidate signed distance `clamp(|voxel - p| - resolution, -T, T)` for each
    voxel inside the grid, and replaces the stored value (and colour) when the
    candidate is strictly smaller. Points are taken in order. `MinFold` is the
    value after the first n points, `ColorFold` the colour. */
module MinFusion {
  import opened Geometry

  /** Parameters of one integration pass. `dist` is the Euclidean distance
      (`Vector3.Distance`, `math.distance`), kept abstract. */
  datatype Sweep = Sweep(origin: Vec3, resolution: real, truncation: real, radius: int,
                         sx: int, sy: int, sz: int, dist: (Vec3, Vec3) -> real)
  {
    predicate Valid()
    {
      resolution > 0.0 && truncation >= 0.0 && radius >= 0 && sx >= 1 && sy >= 1 && sz >= 1
    }

    predicate InGrid(c: Vec3i)
    {
      0 <= c.x < sx && 0 <= c.y < sy && 0 <= c.z < sz
    }

    /** `FloorToInt((p - origin) / resolution)` on each axis. */
    function Home(p: Vec3): Vec3i
      requires Valid()
    {
      Vec3i(Cell(p.x, origin.x, resolution), Cell(p.y, origin.y, resolution), Cell(p.z, origin.z, resolution))
    }

    /** The sweep of p writes c: c is inside the grid and within `radius` of p's home voxel on every axis. */
    predicate Touches(p: Vec3, c: Vec3i)
      requires Valid()
    {
      var h := Home(p);
      InGrid(c) && -radius <= c.x - h.x <= radius && -radius <= c.y - h.y <= radius && -radius <= c.z - h.z <= radius
    }

    /** World position of voxel c: `origin + (x, y, z) * resolution`. */
    function VoxelPos(c: Vec3i): Vec3
    {
      Add(origin, Scale(ToReal(c), resolution))
    }

    /** The truncated signed distance p proposes for voxel c. */
    function Candidate(p: Vec3, c: Vec3i): (v: real)
      requires Valid()
      ensures -truncation <= v <= truncation
    {
      Clamp(dist(VoxelPos(c), p) - resolution, -truncation, truncation)
    }

    /** The value voxel c holds after p's sweep, when it held `prev` before. */
    function Relax(p: Vec3, c: Vec3i, prev: real): real
      requires Valid()
    {
      if Touches(p, c) && Candidate(p, c) < prev then Candidate(p, c) else prev
    }

    /** The colour voxel c holds after the sweep of p with colour `col`. */
    function Recolor(p: Vec3, col: Color, c: Vec3i, prev: real, prevColor: Color): Color
      requires Valid()
    {
      if Touches(p, c) && Candidate(p, c) < prev then col else prevColor
    }

    /** Voxel c has been visited by the sweep of p before offset (dx, dy, dz),
        in the loop order dx, then dy, then dz. */
    predicate SweptBefore(p: Vec3, c: Vec3i, dx: int, dy: int, dz: int)
      requires Valid()
    {
      var h := Home(p);
      && Touches(p, c)
      && (c.x - h.x < dx || (c.x - h.x == dx && (c.y - h.y < dy || (c.y - h.y == dy && c.z - h.z < dz))))
    }
  }

  /** The value of voxel c after the first n points, starting from `truncation`. */
  function MinFold(s: Sweep, ps: seq<Vec3>, n: nat, c: Vec3i): (v: real)
    requires s.Valid() && n <= |ps|
    ensures -s.truncation <= v <= s.truncation
  {
    if n == 0 then s.truncation else s.Relax(ps[n - 1], c, MinFold(s, ps, n - 1, c))
  }

  /** The colour of voxel c after the first n points, starting from `initial`. */
  function ColorFold(s: Sweep, ps: seq<Vec3>, cs: seq<Color>, n: nat, c: Vec3i, initial: Color): Color
    requires s.Valid() && n <= |ps| && n <= |cs|
  {
    if n == 0 then initial
    else s.Recolor(ps[n - 1], cs[n - 1], c, MinFold(s, ps, n - 1, c), ColorFold(s, ps, cs, n - 1, c, initial))
  }

  /** Values never increase as points are added. */
  lemma {:induction false} MinFoldMonotone(s: Sweep, ps: seq<Vec3>, m: nat, n: nat, c: Vec3i)
    requires s.Valid() && m <= n <= |ps|
    ensures MinFold(s, ps, n, c) <= MinFold(s, ps, m, c)
  {
    if m < n {
      MinFoldMonotone(s, ps, m, n - 1, c);
    }
  }

  /** The value is at most the candidate of every point that touches the voxel. */
  lemma {:induction false} MinFoldBelow(s: Sweep, ps: seq<Vec3>, n: nat, c: Vec3i, i: nat)
    requires s.Valid() && i < n <= |ps| && s.Touches(ps[i], c)
    ensures MinFold(s, ps, n, c) <= s.Candidate(ps[i], c)
  {
    if i < n - 1 {
      MinFoldBelow(s, ps, n - 1, c, i);
    }
    MinFoldMonotone(s, ps, i + 1, n, c);
  }

  /** The value is attained: it is `truncation` or the candidate of some point touching the voxel. */
  lemma {:induction false} MinFoldAttained(s: Sweep, ps: seq<Vec3>, n: nat, c: Vec3i)
    requires s.Valid() && n <= |ps|
    ensures MinFold(s, ps, n, c) == s.truncation
         || exists i :: 0 <= i < n && s.Touches(ps[i], c) && MinFold(s, ps, n, c) == s.Candidate(ps[i], c)
  {
    if n > 0 {
      MinFoldAttained(s, ps, n - 1, c);
      if MinFold(s, ps, n, c) != MinFold(s, ps, n - 1, c) {
        assert s.Touches(ps[n - 1], c) && MinFold(s, ps, n, c) == s.Candidate(ps[n - 1], c);
      }
    }
  }

  /** `MinFold` is the minimum of `truncation` and every touching candidate:
      below each of them and equal to one of them. */
  lemma MinFoldIsMinimum(s: Sweep, ps: seq<Vec3>, n: nat, c: Vec3i)
    requires s.Valid() && n <= |ps|
    ensures MinFold(s, ps, n, c) <= s.truncation
    ensures forall i :: 0 <= i < n && s.Touches(ps[i], c) ==> MinFold(s, ps, n, c) <= s.Candidate(ps[i], c)
    ensures MinFold(s, ps, n, c) == s.truncation
         || exists i :: 0 <= i < n && s.Touches(ps[i], c) && MinFold(s, ps, n, c) == s.Candidate(ps[i], c)
  {
    forall i | 0 <= i < n && s.Touches(ps[i], c)
      ensures MinFold(s, ps, n, c) <= s.Candidate(ps[i], c)
    {
      MinFoldBelow(s, ps, n, c, i);
    }
    MinFoldAttained(s, ps, n, c);
  }

  /** A voxel no point touches keeps `truncation` and its initial colour. */
  lemma {:induction false} Untouched(s: Sweep, ps: seq<Vec3>, cs: seq<Color>, n: nat, c: Vec3i, initial: Color)
    requires s.Valid() && n <= |ps| && n <= |cs|
    requires forall i :: 0 <= i < n ==> !s.Touches(ps[i], c)
    ensures MinFold(s, ps, n, c) == s.truncation
    ensures ColorFold(s, ps, cs, n, c, initial) == initial
  {
    if n > 0 {
      Untouched(s, ps, cs, n - 1, c, initial);
    }
  }

  /** The colour of a voxel is that of the first point, in order, whose candidate
      equals the final value; a voxel whose value stayed at `truncation` keeps
      its initial colour. */
  lemma {:induction false} ColorOfFirstMinimum(s: Sweep, ps: seq<Vec3>, cs: seq<Color>, n: nat, c: Vec3i, initial: Color)
    requires s.Valid() && n <= |ps| && n <= |cs|
    ensures MinFold(s, ps, n, c) == s.truncation ==> ColorFold(s, ps, cs, n, c, initial) == initial
    ensures MinFold(s, ps, n, c) < s.truncation ==>
      exists j :: 0 <= j < n && s.Touches(ps[j], c) && s.Candidate(ps[j], c) == MinFold(s, ps, n, c)
        && ColorFold(s, ps, cs, n, c, initial) == cs[j]
        && forall i :: 0 <= i < j && s.Touches(ps[i], c) ==> s.Candidate(ps[i], c) > MinFold(s, ps, n, c)
  {
    if n > 0 {
      ColorOfFirstMinimum(s, ps, cs, n - 1, c, initial);
      var prev := MinFold(s, ps, n - 1, c);
      var p := ps[n - 1];
      if s.Touches(p, c) && s.Candidate(p, c) < prev {
        forall i | 0 <= i < n - 1 && s.Touches(ps[i], c)
          ensures s.Candidate(ps[i], c) > MinFold(s, ps, n, c)
        {
          MinFoldBelow(s, ps, n - 1, c, i);
        }
      }
    }
  }

  /** The colours of the first n points are all `ColorFold` reads of `cs`. */
  lemma {:induction false} ColorFoldPrefix(s: Sweep, ps: seq<Vec3>, cs: seq<Color>, cs': seq<Color>, n: nat, c: Vec3i, initial: Color)
    requires s.Valid() && n <= |ps| && n <= |cs| && n <= |cs'|
    requires forall i :: 0 <= i < n ==> cs[i] == cs'[i]
    ensures ColorFold(s, ps, cs, n, c, initial) == ColorFold(s, ps, cs', n, c, initial)
  {
    if n > 0 {
      ColorFoldPrefix(s, ps, cs, cs', n - 1, c, initial);
    }
  }
}
