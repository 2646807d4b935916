/** The list-based marching-cubes extraction that four components share: the
    configuration index of a cube, the walk along one row of the triangle
    table, edge interpolation with a degeneracy guard, and the sweep over every
    cube of a grid. Each vertex is appended with its own index, so the three
    output lists grow in lockstep and `triangles[k] == k`.

    The extraction runs on the contents of the grids (`Grid`), which the
    components capture from their arrays (`Capture`). */
module CubeMarch {
  import opened Geometry
  import opened VoxelIndex
  import opened MarchingTable

  /** `1e-6f`: corner values closer than this are not interpolated. */
  const Epsilon: real := 0.000001

  /** The contents of a signed-distance grid of `sx × sy × sz` voxels and of its
      colour grid, indexed `[x][y][z]`, placed at `origin` with voxels of side
      `resolution`; the surface is where the value crosses `threshold`. */
  datatype Grid = Grid(sx: int, sy: int, sz: int, tsdf: seq<seq<seq<real>>>, colors: seq<seq<seq<Color>>>,
                       origin: Vec3, resolution: real, threshold: real)
  {
    /** Both grids are boxes of the stated, non-empty shape. */
    predicate Valid()
    {
      && sx >= 1 && sy >= 1 && sz >= 1
      && |tsdf| == sx && |colors| == sx
      && (forall x :: 0 <= x < sx ==> |tsdf[x]| == sy && |colors[x]| == sy)
      && (forall x, y :: 0 <= x < sx && 0 <= y < sy ==> |tsdf[x][y]| == sz && |colors[x][y]| == sz)
    }

    /** `InBounds`: the voxel index lies inside the grid. */
    predicate InBounds(c: Vec3i)
    {
      0 <= c.x < sx && 0 <= c.y < sy && 0 <= c.z < sz
    }

    function Value(c: Vec3i): real
      requires Valid() && InBounds(c)
    {
      tsdf[c.x][c.y][c.z]
    }

    function ColorAt(c: Vec3i): Color
      requires Valid() && InBounds(c)
    {
      colors[c.x][c.y][c.z]
    }

    /** World position of a point given in voxel coordinates: `origin + q * resolution`. */
    function World(q: Vec3): Vec3
    {
      Add(origin, Scale(q, resolution))
    }
  }

  /** The contents of the first `sx × sy × sz` voxels of a `float[,,]` grid and
      its `Color[,,]` grid, as the extraction of a component reads them. */
  function Capture(tsdf: array3<real>, colors: array3<Color>, sx: int, sy: int, sz: int,
                   origin: Vec3, resolution: real, threshold: real): (s: Grid)
    requires 1 <= sx <= tsdf.Length0 && 1 <= sy <= tsdf.Length1 && 1 <= sz <= tsdf.Length2
    requires sx <= colors.Length0 && sy <= colors.Length1 && sz <= colors.Length2
    reads tsdf, colors
    ensures s.Valid() && s.sx == sx && s.sy == sy && s.sz == sz
    ensures s.origin == origin && s.resolution == resolution && s.threshold == threshold
    ensures forall x, y, z :: 0 <= x < sx && 0 <= y < sy && 0 <= z < sz ==>
      s.tsdf[x][y][z] == tsdf[x, y, z] && s.colors[x][y][z] == colors[x, y, z]
  {
    Grid(sx, sy, sz,
      seq(sx, x requires 0 <= x < sx reads tsdf =>
        seq(sy, y requires 0 <= y < sy reads tsdf =>
          seq(sz, z requires 0 <= z < sz reads tsdf => tsdf[x, y, z]))),
      seq(sx, x requires 0 <= x < sx reads colors =>
        seq(sy, y requires 0 <= y < sy reads colors =>
          seq(sz, z requires 0 <= z < sz reads colors => colors[x, y, z]))),
      origin, resolution, threshold)
  }

  /** One emitted vertex with its colour. */
  datatype Vertex = Vertex(pos: Vec3, color: Color)

  /** The three output lists: positions, triangle indices and vertex colours. */
  datatype Mesh = Mesh(vertices: seq<Vec3>, triangles: seq<int>, colors: seq<Color>)

  const EmptyMesh: Mesh := Mesh([], [], [])

  /** The lists have one entry per vertex and every vertex is its own index. */
  predicate Lockstep(m: Mesh)
  {
    && |m.vertices| == |m.triangles| == |m.colors|
    && forall k :: 0 <= k < |m.triangles| ==> m.triangles[k] == k
  }

  function Positions(out: seq<Vertex>): (ps: seq<Vec3>)
    ensures |ps| == |out| && forall i :: 0 <= i < |out| ==> ps[i] == out[i].pos
  {
    seq(|out|, i requires 0 <= i < |out| => out[i].pos)
  }

  function Colors(out: seq<Vertex>): (cs: seq<Color>)
    ensures |cs| == |out| && forall i :: 0 <= i < |out| ==> cs[i] == out[i].color
  {
    seq(|out|, i requires 0 <= i < |out| => out[i].color)
  }

  /** The indices `start, start + 1, …, start + n - 1`. */
  function Range(start: int, n: nat): (r: seq<int>)
    ensures |r| == n && forall i :: 0 <= i < n ==> r[i] == start + i
  {
    seq(n, i requires 0 <= i < n => start + i)
  }

  /** `vertices.Add(v.pos)`, `triangles.Add(vertices.Count - 1)`, `vertexColors.Add(v.color)`. */
  function Append(m: Mesh, v: Vertex): Mesh
  {
    Mesh(m.vertices + [v.pos], m.triangles + [|m.vertices + [v.pos]| - 1], m.colors + [v.color])
  }

  /** The mesh after appending the vertices `out` one by one. */
  function Extend(m: Mesh, out: seq<Vertex>): Mesh
  {
    if |out| == 0 then m else Append(Extend(m, out[..|out| - 1]), out[|out| - 1])
  }

  /** Appending in two batches is appending their concatenation. */
  lemma {:induction false} ExtendConcat(m: Mesh, a: seq<Vertex>, b: seq<Vertex>)
    ensures Extend(Extend(m, a), b) == Extend(m, a + b)
  {
    if |b| == 0 {
      assert a + b == a;
    } else {
      var b' := b[..|b| - 1];
      ExtendConcat(m, a, b');
      assert (a + b)[..|a + b| - 1] == a + b';
    }
  }

  /** Appending one vertex after a batch extends the mesh by the longer batch. */
  lemma AppendExtends(m: Mesh, out: seq<Vertex>, v: Vertex)
    ensures Append(Extend(m, out), v) == Extend(m, out + [v])
  {
    assert (out + [v])[..|out + [v]| - 1] == out;
  }

  /** Extending appends the positions and colours of `out`, in order, to the two
      lists, and the indices `|vertices|, |vertices| + 1, …` to the triangle list. */
  lemma {:induction false} ExtendContents(m: Mesh, out: seq<Vertex>)
    ensures Extend(m, out).vertices == m.vertices + Positions(out)
    ensures Extend(m, out).colors == m.colors + Colors(out)
    ensures Extend(m, out).triangles == m.triangles + Range(|m.vertices|, |out|)
  {
    if |out| > 0 {
      var out' := out[..|out| - 1];
      ExtendContents(m, out');
      assert Positions(out) == Positions(out') + [out[|out| - 1].pos];
      assert Colors(out) == Colors(out') + [out[|out| - 1].color];
      assert Range(|m.vertices|, |out|) == Range(|m.vertices|, |out'|) + [|m.vertices| + |out'|];
    }
  }

  /** Appending keeps the lists in lockstep and adds one entry per vertex. */
  lemma {:induction false} ExtendLockstep(m: Mesh, out: seq<Vertex>)
    requires Lockstep(m)
    ensures Lockstep(Extend(m, out))
    ensures |Extend(m, out).vertices| == |m.vertices| + |out|
  {
    if |out| > 0 {
      ExtendLockstep(m, out[..|out| - 1]);
    }
  }

  /** `Vector3Int.FloorToInt(pos + p)`. */
  function CornerOf(pos: Vec3, p: Vec3): Vec3i
  {
    Vec3i(FloorToInt(pos.x + p.x), FloorToInt(pos.y + p.y), FloorToInt(pos.z + p.z))
  }

  /** The vertex on edge `edge` of the cube at `pos`, or None when an end corner
      is outside the grid or the two corner values are closer than `Epsilon`.
      The crossing parameter `v1 / (v1 - v2)` is clamped to [0, 1], and position
      and colour are interpolated with it. */
  function EdgeVertex(s: Grid, t: Tables, pos: Vec3, edge: int): Option<Vertex>
    requires s.Valid() && |t.edges| == 12 && 0 <= edge < 12
  {
    var p1 := t.edges[edge].p1;
    var p2 := t.edges[edge].p2;
    var c1 := CornerOf(pos, p1);
    var c2 := CornerOf(pos, p2);
    if !s.InBounds(c1) || !s.InBounds(c2) then None
    else
      var v1 := s.Value(c1);
      var v2 := s.Value(c2);
      if Abs(v1 - v2) < Epsilon then None
      else
        var alpha := Clamp01(v1 / (v1 - v2));
        Some(Vertex(s.World(Add(pos, LerpV(p1, p2, alpha))), LerpC(s.ColorAt(c1), s.ColorAt(c2), alpha)))
  }

  /** v lies between u and w, whichever is smaller. */
  predicate Within(u: real, w: real, v: real)
  {
    (u <= w ==> u <= v <= w) && (w <= u ==> w <= v <= u)
  }

  /** q lies in the axis-aligned box spanned by a and b. */
  predicate Between(a: Vec3, b: Vec3, q: Vec3)
  {
    Within(a.x, b.x, q.x) && Within(a.y, b.y, q.y) && Within(a.z, b.z, q.z)
  }

  /** For alpha in [0, 1] the interpolated point lies on the edge, in voxel
      coordinates: inside the box spanned by the edge's two end corners. */
  lemma EdgePointOnEdge(pos: Vec3, p1: Vec3, p2: Vec3, alpha: real)
    requires 0.0 <= alpha <= 1.0
    ensures Between(Add(pos, p1), Add(pos, p2), Add(pos, LerpV(p1, p2, alpha)))
  {
    LerpBetween(p1.x, p2.x, alpha);
    LerpBetween(p1.y, p2.y, alpha);
    LerpBetween(p1.z, p2.z, alpha);
  }

  /** An emitted vertex lies on its cube edge: it is the world position of a
      point inside the box spanned by the edge's two end corners. */
  lemma EdgeVertexOnEdge(s: Grid, t: Tables, pos: Vec3, edge: int)
    requires s.Valid() && |t.edges| == 12 && 0 <= edge < 12
    requires EdgeVertex(s, t, pos, edge).Some?
    ensures exists q :: Between(Add(pos, t.edges[edge].p1), Add(pos, t.edges[edge].p2), q) && EdgeVertex(s, t, pos, edge).value.pos == s.World(q)
  {
    var p1 := t.edges[edge].p1;
    var p2 := t.edges[edge].p2;
    var v1 := s.Value(CornerOf(pos, p1));
    var v2 := s.Value(CornerOf(pos, p2));
    var alpha := Clamp01(v1 / (v1 - v2));
    EdgePointOnEdge(pos, p1, p2, alpha);
    assert EdgeVertex(s, t, pos, edge).value.pos == s.World(Add(pos, LerpV(p1, p2, alpha)));
  }

  /** Position of the first `-1` of a row at or after k, or 15 when there is
      none before the last entry: where the walk of the row stops. */
  function Stop(row: seq<int>, k: nat): (s: nat)
    requires |row| == 16 && k <= 15
    ensures k <= s <= 15
    ensures s < 15 ==> row[s] == -1
    decreases 15 - k
  {
    if k == 15 || row[k] == -1 then k else Stop(row, k + 1)
  }

  /** No entry between k and the stop is a `-1`. */
  lemma {:induction false} StopClear(row: seq<int>, k: nat)
    requires |row| == 16 && k <= 15
    ensures forall j :: k <= j < Stop(row, k) ==> row[j] != -1
    decreases 15 - k
  {
    if k < 15 && row[k] != -1 {
      StopClear(row, k + 1);
    }
  }

  function OptSeq(o: Option<Vertex>): seq<Vertex>
  {
    if o.Some? then [o.value] else []
  }

  /** The vertices the first n entries of a row produce, in order. */
  function Emitted(s: Grid, t: Tables, pos: Vec3, row: seq<int>, n: nat): seq<Vertex>
    requires s.Valid() && |t.edges| == 12 && |row| == 16 && n <= 15
    requires forall j :: 0 <= j < n ==> 0 <= row[j] < 12
  {
    if n == 0 then [] else Emitted(s, t, pos, row, n - 1) + OptSeq(EdgeVertex(s, t, pos, row[n - 1]))
  }

  /** Each table entry gives at most one vertex. */
  lemma {:induction false} EmittedLength(s: Grid, t: Tables, pos: Vec3, row: seq<int>, n: nat)
    requires s.Valid() && |t.edges| == 12 && |row| == 16 && n <= 15
    requires forall j :: 0 <= j < n ==> 0 <= row[j] < 12
    ensures |Emitted(s, t, pos, row, n)| <= n
  {
    if n > 0 {
      EmittedLength(s, t, pos, row, n - 1);
    }
  }

  /** Entries before the stop of a valid row are edge numbers. */
  lemma RowEntries(row: seq<int>)
    requires ValidRow(row)
    ensures forall j :: 0 <= j < Stop(row, 0) ==> 0 <= row[j] < 12
  {
    StopClear(row, 0);
  }

  /** What the cube at `pos` with configuration `config` appends: nothing for
      configurations 0 and 255, otherwise the vertices of the row's entries up
      to its first `-1`. */
  function CellOut(s: Grid, t: Tables, pos: Vec3, config: int): seq<Vertex>
    requires s.Valid() && ValidTables(t) && 0 <= config < 256
  {
    if config == 0 || config == 255 then []
    else
      var row := t.triangles[config];
      RowEntries(row);
      Emitted(s, t, pos, row, Stop(row, 0))
  }

  /** A cube appends at most 15 vertices (five triangles). */
  lemma CellOutBound(s: Grid, t: Tables, pos: Vec3, config: int)
    requires s.Valid() && ValidTables(t) && 0 <= config < 256
    ensures |CellOut(s, t, pos, config)| <= 15
  {
    if config != 0 && config != 255 {
      var row := t.triangles[config];
      RowEntries(row);
      EmittedLength(s, t, pos, row, Stop(row, 0));
    }
  }

  /** `GetConfigIndex`: bit i of the index is set exactly when `cube[i]` is above the threshold. */
  method GetConfigIndex(cube: seq<real>, threshold: real) returns (idx: int)
    requires |cube| == 8
    ensures 0 <= idx < 256 && idx == Config(cube, threshold)
    ensures forall i :: 0 <= i < 8 ==> (Bit(idx as bv8, i) <==> cube[i] > threshold)
  {
    var b: bv8 := 0;
    for i := 0 to 8
      invariant forall j :: 0 <= j < 8 ==> (Bit(b, j) <==> j < i && cube[j] > threshold)
    {
      if cube[i] > threshold {
        SetBit(b, i);
        var b' := b | (1 << i);
        assert forall j :: 0 <= j < 8 ==> (Bit(b', j) <==> Bit(b, j) || j == i);
        b := b';
      } else {
        assert !Bit(b, i);
      }
    }
    forall j | 0 <= j < 8
      ensures Bit(b, j) <==> Bit(ConfigBits(cube, threshold), j)
    {
      ConfigBit(cube, threshold, j);
    }
    BitsDetermine(b, ConfigBits(cube, threshold));
    BitsRoundTrip(b);
    ConfigIsBits(cube, threshold);
    idx := b as int;
  }

  /** The mesh after one table entry is handled: its vertex is appended when there is one. */
  function Grow(m: Mesh, o: Option<Vertex>): Mesh
  {
    if o.Some? then Append(m, o.value) else m
  }

  /** Handling entry n after the first n entries extends the mesh by the first n + 1. */
  lemma GrowEmitted(m0: Mesh, s: Grid, t: Tables, pos: Vec3, row: seq<int>, n: nat)
    requires s.Valid() && |t.edges| == 12 && |row| == 16 && n < 15
    requires forall j :: 0 <= j <= n ==> 0 <= row[j] < 12
    ensures Grow(Extend(m0, Emitted(s, t, pos, row, n)), EdgeVertex(s, t, pos, row[n])) == Extend(m0, Emitted(s, t, pos, row, n + 1))
  {
    var o := EdgeVertex(s, t, pos, row[n]);
    if o.Some? {
      AppendExtends(m0, Emitted(s, t, pos, row, n), o.value);
    } else {
      assert Emitted(s, t, pos, row, n + 1) == Emitted(s, t, pos, row, n);
    }
  }

  /** The mesh after the first n entries of a row are handled one by one. */
  function Walk(m0: Mesh, s: Grid, t: Tables, pos: Vec3, row: seq<int>, n: nat): Mesh
    requires s.Valid() && |t.edges| == 12 && |row| == 16 && n <= 15
    requires forall j :: 0 <= j < n ==> 0 <= row[j] < 12
  {
    if n == 0 then m0 else Grow(Walk(m0, s, t, pos, row, n - 1), EdgeVertex(s, t, pos, row[n - 1]))
  }

  /** Handling the entries one by one appends the vertices they produce. */
  lemma {:induction false} WalkExtends(m0: Mesh, s: Grid, t: Tables, pos: Vec3, row: seq<int>, n: nat)
    requires s.Valid() && |t.edges| == 12 && |row| == 16 && n <= 15
    requires forall j :: 0 <= j < n ==> 0 <= row[j] < 12
    ensures Walk(m0, s, t, pos, row, n) == Extend(m0, Emitted(s, t, pos, row, n))
  {
    if n > 0 {
      WalkExtends(m0, s, t, pos, row, n - 1);
      GrowEmitted(m0, s, t, pos, row, n - 1);
    }
  }

  /** One entry of the walk: the vertex on edge `edge` is interpolated and
      appended, unless an end corner is outside the grid or the two corner
      values are closer than `Epsilon`. */
  method AddEdgeVertex(s: Grid, t: Tables, pos: Vec3, edge: int, m0: Mesh) returns (m: Mesh)
    requires s.Valid() && |t.edges| == 12 && 0 <= edge < 12
    ensures m == Grow(m0, EdgeVertex(s, t, pos, edge))
  {
    m := m0;
    var p1 := t.edges[edge].p1;
    var p2 := t.edges[edge].p2;
    var corner1 := CornerOf(pos, p1);
    var corner2 := CornerOf(pos, p2);
    if !s.InBounds(corner1) || !s.InBounds(corner2) {
      return;
    }
    var v1 := s.Value(corner1);
    var v2 := s.Value(corner2);
    if Abs(v1 - v2) < Epsilon {
      return;
    }
    var alpha := Clamp01(v1 / (v1 - v2));
    var world := s.World(Add(pos, LerpV(p1, p2, alpha)));
    var color := LerpC(s.ColorAt(corner1), s.ColorAt(corner2), alpha);
    m := Append(m, Vertex(world, color));
  }

  /** `MarchCube`: appends exactly the vertices of the cube's configuration, walking
      the row in triples and stopping at the first `-1`; the lists stay in lockstep. */
  method MarchCube(s: Grid, t: Tables, pos: Vec3, cube: seq<real>, m0: Mesh) returns (m: Mesh)
    requires s.Valid() && ValidTables(t) && |cube| == 8
    ensures m == Extend(m0, CellOut(s, t, pos, Config(cube, s.threshold)))
  {
    var config := GetConfigIndex(cube, s.threshold);
    m := m0;
    if config == 0 || config == 255 {
      return;
    }
    var row := t.triangles[config];
    assert ValidRow(row);
    var edgeIndex := 0;
    for tri := 0 to 5
      invariant edgeIndex == 3 * tri
      invariant forall j :: 0 <= j < edgeIndex ==> 0 <= row[j] < 12
      invariant m == Walk(m0, s, t, pos, row, edgeIndex)
    {
      for v := 0 to 3
        invariant edgeIndex == 3 * tri + v
        invariant forall j :: 0 <= j < edgeIndex ==> 0 <= row[j] < 12
        invariant m == Walk(m0, s, t, pos, row, edgeIndex)
      {
        var edge := row[edgeIndex];
        edgeIndex := edgeIndex + 1;
        if edge == -1 {
          StopClear(row, 0);
          assert Stop(row, 0) == edgeIndex - 1;
          WalkExtends(m0, s, t, pos, row, edgeIndex - 1);
          return;
        }
        m := AddEdgeVertex(s, t, pos, edge, m);
      }
    }
    assert Stop(row, 0) == 15;
    WalkExtends(m0, s, t, pos, row, 15);
  }

  /** The value at corner i of the cube whose lowest corner is (x, y, z). */
  function CornerValue(s: Grid, t: Tables, x: int, y: int, z: int, i: int): real
    requires s.Valid() && ValidTables(t) && 0 <= i < 8
    requires 0 <= x < s.sx - 1 && 0 <= y < s.sy - 1 && 0 <= z < s.sz - 1
  {
    assert UnitCorner(t.corners[i]);
    s.Value(AddI(Vec3i(x, y, z), t.corners[i]))
  }

  /** The eight corner values of a cube, in table order. */
  function CubeAt(s: Grid, t: Tables, x: int, y: int, z: int): (cube: seq<real>)
    requires s.Valid() && ValidTables(t)
    requires 0 <= x < s.sx - 1 && 0 <= y < s.sy - 1 && 0 <= z < s.sz - 1
    ensures |cube| == 8 && forall i :: 0 <= i < 8 ==> cube[i] == CornerValue(s, t, x, y, z, i)
  {
    seq(8, i requires 0 <= i < 8 => CornerValue(s, t, x, y, z, i))
  }

  /** What the cube with lowest corner (x, y, z) appends. */
  function CubeOut(s: Grid, t: Tables, x: int, y: int, z: int): seq<Vertex>
    requires s.Valid() && ValidTables(t)
    requires 0 <= x < s.sx - 1 && 0 <= y < s.sy - 1 && 0 <= z < s.sz - 1
  {
    CellOut(s, t, Vec3(x as real, y as real, z as real), Config(CubeAt(s, t, x, y, z), s.threshold))
  }

  /** The cube with lowest corner (x, y, z) lies in the grid. */
  predicate CubeIn(s: Grid, x: int, y: int, z: int)
  {
    0 <= x < s.sx - 1 && 0 <= y < s.sy - 1 && 0 <= z < s.sz - 1
  }

  /** What the sequential loops emit for cube (x, y, z), nothing outside the grid. */
  function CubeFn(s: Grid, t: Tables): (int, int, int) -> seq<Vertex>
    requires s.Valid() && ValidTables(t)
  {
    (x, y, z) => if CubeIn(s, x, y, z) then CubeOut(s, t, x, y, z) else []
  }

  /** Output of the cubes the loops of `MarchCubes` visit before they reach
      (x, y, z): x-major, then y, then z. */
  function Before(s: Grid, t: Tables, x: int, y: int, z: int): seq<Vertex>
    requires s.Valid() && ValidTables(t) && OnWalk(x, y, z, s.sx - 1, s.sy - 1, s.sz - 1)
  {
    RowMajor(CubeFn(s, t), x, y, z, s.sx - 1, s.sy - 1, s.sz - 1)
  }

  /** Output of every cube of the grid. */
  function AllOut(s: Grid, t: Tables): seq<Vertex>
    requires s.Valid() && ValidTables(t)
  {
    Before(s, t, s.sx - 1, 0, 0)
  }

  /** Every corner of a cube with `x < sizeX - 1`, `y < sizeY - 1`, `z < sizeZ - 1` is
      a voxel of the grid, so the eight corner reads are in bounds and the
      `InBounds` skip in `MarchCube` is never taken for such a cube. */
  lemma CubeCornersInBounds(s: Grid, t: Tables, x: int, y: int, z: int, edge: int)
    requires s.Valid() && ValidTables(t) && 0 <= edge < 12
    requires 0 <= x < s.sx - 1 && 0 <= y < s.sy - 1 && 0 <= z < s.sz - 1
    ensures forall i :: 0 <= i < 8 ==> s.InBounds(AddI(Vec3i(x, y, z), t.corners[i]))
    ensures var pos := Vec3(x as real, y as real, z as real);
      s.InBounds(CornerOf(pos, t.edges[edge].p1)) && s.InBounds(CornerOf(pos, t.edges[edge].p2))
  {
    var pos := Vec3(x as real, y as real, z as real);
    var p1 := t.edges[edge].p1;
    var p2 := t.edges[edge].p2;
    assert UnitPoint(p1) && UnitPoint(p2);
    var c1 := CornerOf(pos, p1);
    var c2 := CornerOf(pos, p2);
    assert x <= c1.x <= x + 1 && y <= c1.y <= y + 1 && z <= c1.z <= z + 1;
    assert x <= c2.x <= x + 1 && y <= c2.y <= y + 1 && z <= c2.z <= z + 1;
  }

  /** The body of the z loop of `MarchCubes` for the cube with lowest corner
      (x, y, z): reads its eight corners into a fresh buffer and hands it to `MarchCube`. */
  method MarchCubeAt(s: Grid, t: Tables, x: int, y: int, z: int, m0: Mesh) returns (m: Mesh)
    requires s.Valid() && ValidTables(t)
    requires 0 <= x < s.sx - 1 && 0 <= y < s.sy - 1 && 0 <= z < s.sz - 1
    ensures m == Extend(m0, CubeOut(s, t, x, y, z))
  {
    var cube := new real[8];
    for i := 0 to 8
      invariant forall j :: 0 <= j < i ==> cube[j] == CornerValue(s, t, x, y, z, j)
    {
      assert UnitCorner(t.corners[i]);
      var corner := AddI(Vec3i(x, y, z), t.corners[i]);
      cube[i] := s.Value(corner);
    }
    assert cube[..] == CubeAt(s, t, x, y, z);
    m := MarchCube(s, t, Vec3(x as real, y as real, z as real), cube[..], m0);
  }

  /** One pass of the z loop of `MarchCubes` extends the mesh by the cube it visits. */
  lemma CubeStep(m0: Mesh, s: Grid, t: Tables, x: int, y: int, z: int)
    requires s.Valid() && ValidTables(t) && CubeIn(s, x, y, z)
    ensures Extend(Extend(m0, Before(s, t, x, y, z)), CubeOut(s, t, x, y, z)) == Extend(m0, Before(s, t, x, y, z + 1))
  {
    ExtendConcat(m0, Before(s, t, x, y, z), CubeOut(s, t, x, y, z));
  }

  /** `MarchCubes`: visits every cube with `x < sizeX - 1`, `y < sizeY - 1`,
      `z < sizeZ - 1` once, x-major, appending what `MarchCube` produces for it. */
  method MarchCubes(s: Grid, t: Tables, m0: Mesh) returns (m: Mesh)
    requires s.Valid() && ValidTables(t)
    ensures m == Extend(m0, AllOut(s, t))
  {
    m := m0;
    for x := 0 to s.sx - 1
      invariant m == Extend(m0, Before(s, t, x, 0, 0))
    {
      for y := 0 to s.sy - 1
        invariant m == Extend(m0, Before(s, t, x, y, 0))
      {
        for z := 0 to s.sz - 1
          invariant m == Extend(m0, Before(s, t, x, y, z))
        {
          m := MarchCubeAt(s, t, x, y, z, m);
          CubeStep(m0, s, t, x, y, z);
        }
        assert Before(s, t, x, y + 1, 0) == Before(s, t, x, y, s.sz - 1);
      }
      assert Before(s, t, x + 1, 0, 0) == Before(s, t, x, s.sy - 1, 0);
    }
  }
}
