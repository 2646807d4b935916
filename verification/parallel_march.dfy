/** `TSDFMarchingCubesTesting_Parallel`: the extraction as a parallel job over
    flat copies of the creator's grids and of the lookup tables. Each cube is
    decoded from its number, classified, and emits whole triangles (three
    table entries at a time) into pre-sized output arrays through a shared
    counter. The job has no guard against two equal corner values; it relies
    on the table naming only edges whose corners lie on opposite sides of the
    threshold (`Straddles`). */
module ParallelMarching {
  import opened Geometry
  import opened VoxelIndex
  import opened MarchingTable
  import opened CubeMarch

  /** The two corners that edge `edge` of the cube joins hold different values. */
  ghost predicate Gap(s: Grid, t: Tables, x: int, y: int, z: int, edge: int)
    requires s.Valid() && ValidTables(t) && CubeIn(s, x, y, z) && 0 <= edge < 12
  {
    var pos := Vec3(x as real, y as real, z as real);
    CubeCornersInBounds(s, t, x, y, z, edge);
    s.Value(CornerOf(pos, t.edges[edge].p1)) != s.Value(CornerOf(pos, t.edges[edge].p2))
  }

  /** `InterpolateEdge`: the vertex on edge `edge` of the cube, with the crossing
      parameter `s1 / (s1 - s2)` clamped to [0, 1] and no degeneracy guard. */
  ghost function JobVertex(s: Grid, t: Tables, x: int, y: int, z: int, edge: int): Vertex
    requires s.Valid() && ValidTables(t) && CubeIn(s, x, y, z) && 0 <= edge < 12
    requires Gap(s, t, x, y, z, edge)
  {
    var pos := Vec3(x as real, y as real, z as real);
    var p1 := t.edges[edge].p1;
    var p2 := t.edges[edge].p2;
    CubeCornersInBounds(s, t, x, y, z, edge);
    var c1 := CornerOf(pos, p1);
    var c2 := CornerOf(pos, p2);
    var s1 := s.Value(c1);
    var s2 := s.Value(c2);
    var alpha := Clamp(s1 / (s1 - s2), 0.0, 1.0);
    Vertex(s.World(Add(pos, LerpV(p1, p2, alpha))), LerpC(s.ColorAt(c1), s.ColorAt(c2), alpha))
  }

  /** The job's vertex is the sequential extractor's wherever the latter's
      `Epsilon` guard lets the edge through; where it does not, only the job
      emits a vertex. */
  lemma JobVertexManaged(s: Grid, t: Tables, x: int, y: int, z: int, edge: int)
    requires s.Valid() && ValidTables(t) && CubeIn(s, x, y, z) && 0 <= edge < 12
    requires Gap(s, t, x, y, z, edge)
    ensures var pos := Vec3(x as real, y as real, z as real);
      var v1 := s.tsdf[FloorToInt(pos.x + t.edges[edge].p1.x)][FloorToInt(pos.y + t.edges[edge].p1.y)][FloorToInt(pos.z + t.edges[edge].p1.z)];
      var v2 := s.tsdf[FloorToInt(pos.x + t.edges[edge].p2.x)][FloorToInt(pos.y + t.edges[edge].p2.y)][FloorToInt(pos.z + t.edges[edge].p2.z)];
      && (Abs(v1 - v2) >= Epsilon ==> EdgeVertex(s, t, pos, edge) == Some(JobVertex(s, t, x, y, z, edge)))
      && (Abs(v1 - v2) < Epsilon ==> EdgeVertex(s, t, pos, edge) == None)
  {
    CubeCornersInBounds(s, t, x, y, z, edge);
  }

  /** The job's vertex lies on its cube edge, like the sequential extractor's. */
  lemma JobVertexOnEdge(s: Grid, t: Tables, x: int, y: int, z: int, edge: int)
    requires s.Valid() && ValidTables(t) && CubeIn(s, x, y, z) && 0 <= edge < 12
    requires Gap(s, t, x, y, z, edge)
    ensures var pos := Vec3(x as real, y as real, z as real);
      exists q :: Between(Add(pos, t.edges[edge].p1), Add(pos, t.edges[edge].p2), q) && JobVertex(s, t, x, y, z, edge).pos == s.World(q)
  {
    var pos := Vec3(x as real, y as real, z as real);
    var p1 := t.edges[edge].p1;
    var p2 := t.edges[edge].p2;
    CubeCornersInBounds(s, t, x, y, z, edge);
    var s1 := s.Value(CornerOf(pos, p1));
    var s2 := s.Value(CornerOf(pos, p2));
    var alpha := Clamp(s1 / (s1 - s2), 0.0, 1.0);
    EdgePointOnEdge(pos, p1, p2, alpha);
    assert JobVertex(s, t, x, y, z, edge).pos == s.World(Add(pos, LerpV(p1, p2, alpha)));
  }

  /** Every edge a row names has different corner values. */
  ghost predicate RowGaps(s: Grid, t: Tables, x: int, y: int, z: int, row: seq<int>)
    requires s.Valid() && ValidTables(t) && CubeIn(s, x, y, z) && ValidRow(row)
  {
    forall k :: 0 <= k < 16 && row[k] >= 0 ==> Gap(s, t, x, y, z, row[k])
  }

  /** The triangles of a row from entry k on, three entries at a time, up to
      the first triple holding a `-1`. Entry 15 is always `-1`, so the triple
      starting there (which reads two entries past the row) ends the walk. */
  ghost function Triples(s: Grid, t: Tables, x: int, y: int, z: int, row: seq<int>, k: nat): (out: seq<Vertex>)
    requires s.Valid() && ValidTables(t) && CubeIn(s, x, y, z) && ValidRow(row) && RowGaps(s, t, x, y, z, row)
    ensures k <= 15 ==> k + |out| <= 15
    decreases 16 - k
  {
    if k >= 15 || row[k] < 0 || row[k + 1] < 0 || row[k + 2] < 0 then []
    else
      var rest := Triples(s, t, x, y, z, row, k + 3);
      var tri := seq(3, i requires 0 <= i < 3 => JobVertex(s, t, x, y, z, row[k + i]));
      tri + rest
  }

  /** Where entries k, k+1 and k+2 name edges, the triples from k on start
      with their three vertices. */
  lemma TriplesStep(s: Grid, t: Tables, x: int, y: int, z: int, row: seq<int>, k: nat)
    requires s.Valid() && ValidTables(t) && CubeIn(s, x, y, z) && ValidRow(row) && RowGaps(s, t, x, y, z, row)
    requires k <= 13 && row[k] >= 0 && row[k + 1] >= 0 && row[k + 2] >= 0
    ensures Triples(s, t, x, y, z, row, k)
         == [JobVertex(s, t, x, y, z, row[k]), JobVertex(s, t, x, y, z, row[k + 1]), JobVertex(s, t, x, y, z, row[k + 2])] + Triples(s, t, x, y, z, row, k + 3)
  {
    var tri := seq(3, i requires 0 <= i < 3 => JobVertex(s, t, x, y, z, row[k + i]));
    assert tri == [tri[0], tri[1], tri[2]];
  }

  /** A run of whole triangles: three vertices at a time. */
  ghost predicate Whole(out: seq<Vertex>)
    decreases |out|
  {
    |out| == 0 || (|out| >= 3 && Whole(out[3..]))
  }

  /** Runs of whole triangles concatenate to one. */
  lemma {:induction false} WholeConcat(a: seq<Vertex>, b: seq<Vertex>)
    requires Whole(a) && Whole(b)
    ensures Whole(a + b)
    decreases |a|
  {
    if |a| == 0 {
      assert a + b == b;
    } else {
      WholeConcat(a[3..], b);
      assert (a + b)[3..] == a[3..] + b;
    }
  }

  /** The job's triples of a row are whole triangles. */
  lemma {:induction false} TriplesWhole(s: Grid, t: Tables, x: int, y: int, z: int, row: seq<int>, k: nat)
    requires s.Valid() && ValidTables(t) && CubeIn(s, x, y, z) && ValidRow(row) && RowGaps(s, t, x, y, z, row)
    ensures Whole(Triples(s, t, x, y, z, row, k))
    decreases 16 - k
  {
    var out := Triples(s, t, x, y, z, row, k);
    if out != [] {
      TriplesWhole(s, t, x, y, z, row, k + 3);
      assert out[3..] == Triples(s, t, x, y, z, row, k + 3);
    }
  }

  /** A run of whole triangles has a length divisible by three. */
  lemma {:induction false} WholeLength(out: seq<Vertex>)
    requires Whole(out)
    ensures |out| % 3 == 0
    decreases |out|
  {
    if |out| > 0 {
      WholeLength(out[3..]);
      assert |out| == |out[3..]| + 3;
    }
  }

  /** The row of a cube's configuration names only straddling edges, so every
      interpolation the job does has a non-zero denominator. */
  lemma StraddleGaps(s: Grid, t: Tables, x: int, y: int, z: int)
    requires s.Valid() && ValidTables(t) && CubeIn(s, x, y, z) && Straddles(t)
    ensures RowGaps(s, t, x, y, z, t.triangles[Config(CubeAt(s, t, x, y, z), s.threshold)])
  {
    var cube := CubeAt(s, t, x, y, z);
    var c := Config(cube, s.threshold);
    var row := t.triangles[c];
    var pos := Vec3(x as real, y as real, z as real);
    ConfigIsBits(cube, s.threshold);
    BitsRoundTrip(ConfigBits(cube, s.threshold));
    assert c as bv8 == ConfigBits(cube, s.threshold);
    forall k | 0 <= k < 16 && row[k] >= 0
      ensures Gap(s, t, x, y, z, row[k])
    {
      var e := row[k];
      assert Straddling(t, c, k);
      var i, j :| 0 <= i < 8 && 0 <= j < 8 && Joins(t, e, i, j) && Bit(c as bv8, i) != Bit(c as bv8, j);
      ConfigBit(cube, s.threshold, i);
      ConfigBit(cube, s.threshold, j);
      CornerIsEdgeEnd(s, t, x, y, z, i, t.edges[e].p1);
      CornerIsEdgeEnd(s, t, x, y, z, j, t.edges[e].p2);
    }
  }

  /** Corner i of the cube is the grid voxel at the end of an edge that starts
      or ends at that table corner. */
  lemma CornerIsEdgeEnd(s: Grid, t: Tables, x: int, y: int, z: int, i: int, p: Vec3)
    requires s.Valid() && ValidTables(t) && CubeIn(s, x, y, z) && 0 <= i < 8
    requires ToReal(t.corners[i]) == p
    ensures CornerOf(Vec3(x as real, y as real, z as real), p) == AddI(Vec3i(x, y, z), t.corners[i])
  {
    assert UnitCorner(t.corners[i]);
  }

  /** What the job emits for the cube with lowest corner (x, y, z): nothing for
      configurations 0 and 255, otherwise the whole triangles of the row. */
  ghost function JobCubeOut(s: Grid, t: Tables, x: int, y: int, z: int): (out: seq<Vertex>)
    requires s.Valid() && ValidTables(t) && Straddles(t) && CubeIn(s, x, y, z)
    ensures Whole(out) && |out| <= 15
  {
    var config := Config(CubeAt(s, t, x, y, z), s.threshold);
    if config == 0 || config == 255 then []
    else
      StraddleGaps(s, t, x, y, z);
      TriplesWhole(s, t, x, y, z, t.triangles[config], 0);
      Triples(s, t, x, y, z, t.triangles[config], 0)
  }

  /** Every entry before the first `-1` of the row, and the count of those
      entries is a whole number of triangles. */
  ghost predicate WholeTriangles(row: seq<int>)
    requires |row| == 16
  {
    Stop(row, 0) % 3 == 0
  }

  /** With `vs[j]` the vertex entry j gives, the sequential extractor's first
      k vertices of the row are `vs[..k]`. */
  lemma {:induction false} EmittedPrefix(s: Grid, t: Tables, pos: Vec3, row: seq<int>, vs: seq<Vertex>, k: nat)
    requires s.Valid() && |t.edges| == 12 && |row| == 16 && |vs| <= 15 && k <= |vs|
    requires forall j :: 0 <= j < |vs| ==> 0 <= row[j] < 12 && EdgeVertex(s, t, pos, row[j]) == Some(vs[j])
    ensures Emitted(s, t, pos, row, k) == vs[..k]
  {
    if k > 0 {
      EmittedPrefix(s, t, pos, row, vs, k - 1);
      TakeLast(vs, k);
    }
  }

  /** With `vs[j]` the job's vertex for entry j and the row's entries before
      its first `-1` a whole number 3q of triangles, the job's triples from
      entry 3m on are `vs[3m..]`. */
  lemma {:induction false} TriplesSuffix(s: Grid, t: Tables, x: int, y: int, z: int, row: seq<int>, vs: seq<Vertex>, m: nat, q: nat)
    requires s.Valid() && ValidTables(t) && CubeIn(s, x, y, z) && ValidRow(row) && RowGaps(s, t, x, y, z, row)
    requires Stop(row, 0) == 3 * q == |vs| && m <= q
    requires forall j :: 0 <= j < |vs| ==> row[j] >= 0 && vs[j] == JobVertex(s, t, x, y, z, row[j])
    ensures Triples(s, t, x, y, z, row, 3 * m) == vs[3 * m..]
    decreases q - m
  {
    var k := 3 * m;
    if m < q {
      TriplesSuffix(s, t, x, y, z, row, vs, m + 1, q);
      TriplesStep(s, t, x, y, z, row, k);
      SplitThree(vs, k);
    }
  }

  /** A non-empty prefix is the shorter prefix and its last element. */
  lemma TakeLast<T>(a: seq<T>, k: nat)
    requires 0 < k <= |a|
    ensures a[..k] == a[..k - 1] + [a[k - 1]]
  {
  }

  /** The prefix of a sequence's full length is the sequence. */
  lemma TakeAll<T>(a: seq<T>)
    ensures a[..|a|] == a
  {
  }

  /** A suffix of length at least three is its first three elements and the rest. */
  lemma SplitThree<T>(a: seq<T>, k: nat)
    requires k + 3 <= |a|
    ensures a[k..] == [a[k], a[k + 1], a[k + 2]] + a[k + 3..]
  {
  }

  /** On one row: where the entries before the first `-1` are whole
      triangles and the `Epsilon` guard lets every named edge through, the
      job's triples are the sequential extractor's vertices. */
  lemma RowMatches(s: Grid, t: Tables, x: int, y: int, z: int, row: seq<int>)
    requires s.Valid() && ValidTables(t) && CubeIn(s, x, y, z) && ValidRow(row) && RowGaps(s, t, x, y, z, row)
    requires WholeTriangles(row)
    requires forall j :: 0 <= j < Stop(row, 0) && 0 <= row[j] < 12 ==> EdgeVertex(s, t, Vec3(x as real, y as real, z as real), row[j]).Some?
    ensures (RowEntries(row); Triples(s, t, x, y, z, row, 0) == Emitted(s, t, Vec3(x as real, y as real, z as real), row, Stop(row, 0)))
  {
    RowEntries(row);
    var vs := JobVertices(s, t, x, y, z, row);
    RowVertices(s, t, x, y, z, row, vs);
    RowTriples(s, t, x, y, z, row, vs);
  }

  /** The job's vertex of each entry of a row before its first `-1`. */
  ghost function JobVertices(s: Grid, t: Tables, x: int, y: int, z: int, row: seq<int>): (vs: seq<Vertex>)
    requires s.Valid() && ValidTables(t) && CubeIn(s, x, y, z) && ValidRow(row) && RowGaps(s, t, x, y, z, row)
    ensures |vs| == Stop(row, 0)
    ensures forall j :: 0 <= j < |vs| ==> row[j] >= 0 && vs[j] == JobVertex(s, t, x, y, z, row[j])
  {
    RowEntries(row);
    seq(Stop(row, 0), j requires 0 <= j < Stop(row, 0) => JobVertex(s, t, x, y, z, row[j]))
  }

  /** With `vs` the job's vertices of the entries before the first `-1`, a
      whole number of triangles, the job's triples are `vs`. */
  lemma RowTriples(s: Grid, t: Tables, x: int, y: int, z: int, row: seq<int>, vs: seq<Vertex>)
    requires s.Valid() && ValidTables(t) && CubeIn(s, x, y, z) && ValidRow(row) && RowGaps(s, t, x, y, z, row)
    requires WholeTriangles(row) && |vs| == Stop(row, 0)
    requires forall j :: 0 <= j < |vs| ==> row[j] >= 0 && vs[j] == JobVertex(s, t, x, y, z, row[j])
    ensures Triples(s, t, x, y, z, row, 0) == vs
  {
    var n := |vs|;
    assert n == 3 * (n / 3);
    TriplesSuffix(s, t, x, y, z, row, vs, 0, n / 3);
  }

  /** Entry by entry, the job's vertex is the one the guard lets through, so
      the sequential extractor's vertices of the row are the job's vertices
      of its entries before the first `-1`. */
  lemma RowVertices(s: Grid, t: Tables, x: int, y: int, z: int, row: seq<int>, vs: seq<Vertex>)
    requires s.Valid() && ValidTables(t) && CubeIn(s, x, y, z) && ValidRow(row) && RowGaps(s, t, x, y, z, row)
    requires |vs| == Stop(row, 0)
    requires forall j :: 0 <= j < |vs| ==> row[j] >= 0 && vs[j] == JobVertex(s, t, x, y, z, row[j])
    requires forall j :: 0 <= j < |vs| && 0 <= row[j] < 12 ==> EdgeVertex(s, t, Vec3(x as real, y as real, z as real), row[j]).Some?
    ensures Emitted(s, t, Vec3(x as real, y as real, z as real), row, |vs|) == vs
  {
    var pos := Vec3(x as real, y as real, z as real);
    forall j | 0 <= j < |vs|
      ensures 0 <= row[j] < 12 && EdgeVertex(s, t, pos, row[j]) == Some(vs[j])
    {
      JobVertexManaged(s, t, x, y, z, row[j]);
    }
    EmittedPrefix(s, t, pos, row, vs, |vs|);
    TakeAll(vs);
  }

  /** The cube's row holds whole triangles and the `Epsilon` guard lets
      every edge the row names through. */
  ghost predicate Managed(s: Grid, t: Tables, x: int, y: int, z: int)
    requires s.Valid() && ValidTables(t) && CubeIn(s, x, y, z)
  {
    var row := t.triangles[Config(CubeAt(s, t, x, y, z), s.threshold)];
    && WholeTriangles(row)
    && forall j :: 0 <= j < Stop(row, 0) && 0 <= row[j] < 12 ==> EdgeVertex(s, t, Vec3(x as real, y as real, z as real), row[j]).Some?
  }

  /** Where the row holds whole triangles and no named edge is caught by the
      `Epsilon` guard, the job and the sequential extractors emit the same
      vertices for a cube. */
  lemma JobMatchesManaged(s: Grid, t: Tables, x: int, y: int, z: int)
    requires s.Valid() && ValidTables(t) && Straddles(t) && CubeIn(s, x, y, z)
    requires Managed(s, t, x, y, z)
    ensures JobCubeOut(s, t, x, y, z) == CubeOut(s, t, x, y, z)
  {
    var config := Config(CubeAt(s, t, x, y, z), s.threshold);
    if config != 0 && config != 255 {
      StraddleGaps(s, t, x, y, z);
      RowMatches(s, t, x, y, z, t.triangles[config]);
    }
  }

  /** Eight values that are the cube's corner values are the cube. */
  lemma CubeValues(s: Grid, t: Tables, x: int, y: int, z: int, cube: seq<real>)
    requires s.Valid() && ValidTables(t) && CubeIn(s, x, y, z)
    requires |cube| == 8 && forall i :: 0 <= i < 8 ==> cube[i] == CornerValue(s, t, x, y, z, i)
    ensures cube == CubeAt(s, t, x, y, z)
  {
  }

  /** `cubeCount = (sizeX - 1) * (sizeY - 1) * (sizeZ - 1)`. */
  function CubeCount(s: Grid): nat
    requires s.Valid()
  {
    (s.sx - 1) * (s.sy - 1) * (s.sz - 1)
  }

  /** A box with a cube numbered n in it has every side at least one. */
  lemma CountsPositive(a: int, b: int, c: int, n: int)
    requires a >= 0 && b >= 0 && c >= 0 && 0 <= n < a * b * c
    ensures a > 0 && b > 0 && c > 0
  {
  }

  /** The cube numbered n, decoded as the job decodes it, lies in the grid. */
  function CubeOf(s: Grid, n: int): (c: Vec3i)
    requires s.Valid() && 0 <= n < CubeCount(s)
    ensures CubeIn(s, c.x, c.y, c.z) && c == CubeCell(n, s.sy - 1, s.sz - 1)
    ensures Index(c.x, c.y, c.z, s.sy - 1, s.sz - 1) == n
  {
    CountsPositive(s.sx - 1, s.sy - 1, s.sz - 1, n);
    CubeCellInBox(n, s.sx - 1, s.sy - 1, s.sz - 1);
    CubeCell(n, s.sy - 1, s.sz - 1)
  }

  /** What the job emits for the cube numbered n. */
  ghost function CubeJob(s: Grid, t: Tables, n: int): (out: seq<Vertex>)
    requires s.Valid() && ValidTables(t) && Straddles(t) && 0 <= n < CubeCount(s)
    ensures Whole(out) && |out| <= 15
  {
    var c := CubeOf(s, n);
    JobCubeOut(s, t, c.x, c.y, c.z)
  }

  /** What the job leaves in the output arrays after cubes 0 … n-1 ran in
      number order, each cube decoded as the job decodes it. */
  ghost function JobOut(s: Grid, t: Tables, n: nat): (out: seq<Vertex>)
    requires s.Valid() && ValidTables(t) && Straddles(t) && n <= CubeCount(s)
    ensures Whole(out) && |out| <= 15 * n
  {
    if n == 0 then []
    else
      var prev := JobOut(s, t, n - 1);
      var out := CubeJob(s, t, n - 1);
      WholeConcat(prev, out);
      prev + out
  }

  /** Outputs that are, in order, those of cubes 0 … n-1 make up the job's output for them. */
  lemma {:induction false} FlattenJob(s: Grid, t: Tables, outs: seq<seq<Vertex>>)
    requires s.Valid() && ValidTables(t) && Straddles(t) && |outs| <= CubeCount(s)
    requires forall k {:trigger CubeJob(s, t, k)} :: 0 <= k < |outs| ==> outs[k] == CubeJob(s, t, k)
    ensures Flatten(outs) == JobOut(s, t, |outs|)
    decreases |outs|
  {
    if |outs| > 0 {
      var n := |outs| - 1;
      assert forall k {:trigger CubeJob(s, t, k)} :: 0 <= k < n ==> outs[..n][k] == CubeJob(s, t, k);
      FlattenJob(s, t, outs[..n]);
      assert outs[n] == CubeJob(s, t, n);
    }
  }

  /** Every cube of the grid is `Managed`. */
  ghost predicate AllManaged(s: Grid, t: Tables)
    requires s.Valid() && ValidTables(t)
  {
    forall x, y, z {:trigger Managed(s, t, x, y, z)} :: CubeIn(s, x, y, z) ==> Managed(s, t, x, y, z)
  }

  /** The job numbers a `Managed` cube `Index(x, y, z)` and emits for it what
      the sequential extractor emits. */
  lemma CubeJobAt(s: Grid, t: Tables, x: int, y: int, z: int)
    requires s.Valid() && ValidTables(t) && Straddles(t) && CubeIn(s, x, y, z) && Managed(s, t, x, y, z)
    ensures var n := Index(x, y, z, s.sy - 1, s.sz - 1);
      && 0 <= n < CubeCount(s)
      && CubeJob(s, t, n) == CubeOut(s, t, x, y, z)
  {
    var n := Index(x, y, z, s.sy - 1, s.sz - 1);
    IndexInRange(x, y, z, s.sx - 1, s.sy - 1, s.sz - 1);
    var c := CubeOf(s, n);
    IndexInjective(c.x, c.y, c.z, x, y, z, s.sx - 1, s.sy - 1, s.sz - 1);
    JobMatchesManaged(s, t, x, y, z);
  }

  /** The job's outputs, cube by cube, in number order. */
  ghost function JobOuts(s: Grid, t: Tables): (outs: seq<seq<Vertex>>)
    requires s.Valid() && ValidTables(t) && Straddles(t)
    ensures |outs| == CubeCount(s)
    ensures forall k {:trigger CubeJob(s, t, k)} :: 0 <= k < |outs| ==> outs[k] == CubeJob(s, t, k)
  {
    seq(CubeCount(s), k requires 0 <= k < CubeCount(s) => CubeJob(s, t, k))
  }

  /** Where every cube is `Managed`, the job's output for the cube numbered
      `Index(x, y, z)` is the sequential output of cube (x, y, z). */
  lemma JobOutsMatch(s: Grid, t: Tables)
    requires s.Valid() && ValidTables(t) && Straddles(t) && AllManaged(s, t)
    ensures IndexOrder(JobOuts(s, t), CubeFn(s, t), s.sx - 1, s.sy - 1, s.sz - 1)
  {
    forall i, j, k | InBox(i, j, k, s.sx - 1, s.sy - 1, s.sz - 1) && 0 <= Index(i, j, k, s.sy - 1, s.sz - 1) < |JobOuts(s, t)|
      ensures JobOuts(s, t)[Index(i, j, k, s.sy - 1, s.sz - 1)] == CubeFn(s, t)(i, j, k)
    {
      CubeJobAt(s, t, i, j, k);
    }
  }

  /** Where every cube is `Managed`, the job's outputs in number order are
      the sequential output: the loops visit the cubes in number order. */
  lemma JobOutsInOrder(s: Grid, t: Tables)
    requires s.Valid() && ValidTables(t) && Straddles(t) && AllManaged(s, t)
    ensures Flatten(JobOuts(s, t)) == AllOut(s, t)
  {
    var xs, ys, zs := s.sx - 1, s.sy - 1, s.sz - 1;
    var outs := JobOuts(s, t);
    JobOutsMatch(s, t);
    MulAssoc(xs, ys, zs);
    WalkFlatten(outs, CubeFn(s, t), xs, 0, 0, xs, ys, zs);
    assert outs[..CubeCount(s)] == outs;
  }

  /** Where every cube is `Managed`, the job, run over cubes 0 … cubeCount-1,
      emits the sequential extractor's vertices in the sequential order. */
  lemma JobMatchesSequential(s: Grid, t: Tables)
    requires s.Valid() && ValidTables(t) && Straddles(t) && AllManaged(s, t)
    ensures JobOut(s, t, CubeCount(s)) == AllOut(s, t)
  {
    JobOutsInOrder(s, t);
    FlattenJob(s, t, JobOuts(s, t));
  }

  /** `edgeVertexPositions`: entries `2e` and `2e + 1` are the two ends of edge e. */
  ghost predicate EdgeTable(a: array<Vec3>, t: Tables)
    reads a
  {
    |t.edges| == 12 && a.Length == 24 && forall e :: 0 <= e < 12 ==> a[2 * e] == t.edges[e].p1 && a[2 * e + 1] == t.edges[e].p2
  }

  /** `triangleTable`: entry `16 i + j` is entry j of row i. */
  ghost predicate TriangleTable(a: array<int>, t: Tables)
    reads a
  {
    && |t.triangles| == 256 && (forall i :: 0 <= i < 256 ==> |t.triangles[i]| == 16)
    && a.Length == 4096 && forall i, j :: 0 <= i < 256 && 0 <= j < 16 ==> a[16 * i + j] == t.triangles[i][j]
  }

  /** A triple read at entry tt of a row with a `-1` among the entries that
      lie in the row ends the walk there. */
  lemma TripleEnd(s: Grid, t: Tables, x: int, y: int, z: int, row: seq<int>, tt: int, e0: int, e1: int, e2: int)
    requires s.Valid() && ValidTables(t) && CubeIn(s, x, y, z) && ValidRow(row) && RowGaps(s, t, x, y, z, row)
    requires 0 <= tt <= 15 && e0 == row[tt] && (tt < 15 ==> e1 == row[tt + 1]) && (tt < 14 ==> e2 == row[tt + 2])
    requires e0 < 0 || e1 < 0 || e2 < 0
    ensures Triples(s, t, x, y, z, row, tt) == []
  {
  }

  /** A triple read at entry tt of a row with no `-1` among its three entries
      is three entries of the row, each naming an edge whose corners differ,
      and the job's triples from tt on start with it. */
  lemma TripleNext(s: Grid, t: Tables, x: int, y: int, z: int, row: seq<int>, tt: int, e0: int, e1: int, e2: int)
    requires s.Valid() && ValidTables(t) && CubeIn(s, x, y, z) && ValidRow(row) && RowGaps(s, t, x, y, z, row)
    requires 0 <= tt <= 15 && e0 == row[tt] && (tt < 15 ==> e1 == row[tt + 1]) && (tt < 14 ==> e2 == row[tt + 2])
    requires e0 >= 0 && e1 >= 0 && e2 >= 0
    ensures tt <= 12 && e1 == row[tt + 1] && e2 == row[tt + 2]
    ensures 0 <= e0 < 12 && 0 <= e1 < 12 && 0 <= e2 < 12
    ensures Gap(s, t, x, y, z, e0) && Gap(s, t, x, y, z, e1) && Gap(s, t, x, y, z, e2)
    ensures Triples(s, t, x, y, z, row, tt)
         == [JobVertex(s, t, x, y, z, e0), JobVertex(s, t, x, y, z, e1), JobVertex(s, t, x, y, z, e2)] + Triples(s, t, x, y, z, row, tt + 3)
  {
    assert row[15] == -1;
    TriplesStep(s, t, x, y, z, row, tt);
  }

  /** Entry j of row c of the triangle table sits at `16 c + j` of the flat table. */
  lemma TableEntry(a: array<int>, t: Tables, c: int, k: int, j: int)
    requires TriangleTable(a, t) && 0 <= c < 256 && 0 <= j < 16 && k == 16 * c + j
    ensures 0 <= k < a.Length && a[k] == t.triangles[c][j]
  {
  }

  /** `(int)` of a float: truncation toward zero. */
  function Trunc(r: real): (n: int)
    ensures 0.0 <= r ==> n == r.Floor
  {
    if r >= 0.0 then r.Floor else -((-r).Floor)
  }

  /** A unit corner of a cube inside the grid is a voxel of the grid, at the
      cube's flat index plus the corner's own flat offset. */
  lemma CornerSlot(x: int, y: int, z: int, c: Vec3i, sx: int, sy: int, sz: int, off: int)
    requires UnitCorner(c) && 0 <= x < sx - 1 && 0 <= y < sy - 1 && 0 <= z < sz - 1
    requires off == Index(c.x, c.y, c.z, sy, sz)
    ensures InBox(x + c.x, y + c.y, z + c.z, sx, sy, sz)
    ensures Slot(x + c.x, y + c.y, z + c.z, sx, sy, sz) == Index(x, y, z, sy, sz) + off
  {
    IndexShift(x, y, z, c.x, c.y, c.z, sy, sz);
  }

  /** `MarchCubeJob`: its read-only inputs and its three output arrays. */
  datatype MarchCubeJob = MarchCubeJob(
    tsdf: array<real>, tsdfColors: array<Color>, cornerOffsets: array<int>,
    edgeVertexPos: array<Vec3>, triangleTable: array<int>,
    sizeX: int, sizeY: int, sizeZ: int, strideYZ: int,
    threshold: real, resolution: real, tsdfOrigin: Vec3,
    outVerts: array<Vec3>, outCols: array<Color>, counter: array<int>)
  {
    /** The flat inputs hold grid g and tables t in the layouts the component
        gives them: voxel (x, y, z) at `x * strideYZ + y * sizeZ + z`, corner
        offset i at the flat index of table corner i. */
    ghost predicate Mirrors(g: Grid, t: Tables)
      reads tsdf, tsdfColors, cornerOffsets, edgeVertexPos, triangleTable
    {
      && g.Valid() && ValidTables(t) && Straddles(t)
      && g.sx == sizeX && g.sy == sizeY && g.sz == sizeZ
      && g.threshold == threshold && g.resolution == resolution && g.origin == tsdfOrigin
      && strideYZ == sizeY * sizeZ
      && tsdf.Length == sizeX * sizeY * sizeZ && tsdfColors.Length == tsdf.Length
      && (forall x, y, z {:trigger Slot(x, y, z, sizeX, sizeY, sizeZ)} :: InBox(x, y, z, sizeX, sizeY, sizeZ) ==>
            tsdf[Slot(x, y, z, sizeX, sizeY, sizeZ)] == g.tsdf[x][y][z]
            && tsdfColors[Slot(x, y, z, sizeX, sizeY, sizeZ)] == g.colors[x][y][z])
      && cornerOffsets.Length == 8
      && (forall i :: 0 <= i < 8 ==> cornerOffsets[i] == Index(t.corners[i].x, t.corners[i].y, t.corners[i].z, sizeY, sizeZ))
      && EdgeTable(edgeVertexPos, t) && TriangleTable(triangleTable, t)
    }

    /** The outputs are three arrays of their own, the two lists of equal length. */
    predicate Outputs()
      reads this.counter
    {
      && outVerts != edgeVertexPos && outCols != tsdfColors
      && counter != cornerOffsets && counter != triangleTable
      && outCols.Length == outVerts.Length && counter.Length == 1 && 0 <= counter[0]
    }

    /** Corner i of the cube at (x, y, z) sits at the cube's flat index plus
        corner offset i, and holds the grid's corner value. */
    lemma CornerRead(g: Grid, t: Tables, x: int, y: int, z: int, i: int)
      requires Mirrors(g, t) && CubeIn(g, x, y, z) && 0 <= i < 8
      ensures 0 <= Index(x, y, z, sizeY, sizeZ) + cornerOffsets[i] < tsdf.Length
      ensures tsdf[Index(x, y, z, sizeY, sizeZ) + cornerOffsets[i]] == CornerValue(g, t, x, y, z, i)
    {
      var c := t.corners[i];
      assert UnitCorner(c);
      CornerSlot(x, y, z, c, sizeX, sizeY, sizeZ, cornerOffsets[i]);
      assert tsdf[Slot(x + c.x, y + c.y, z + c.z, sizeX, sizeY, sizeZ)] == g.tsdf[x + c.x][y + c.y][z + c.z];
      assert AddI(Vec3i(x, y, z), c) == Vec3i(x + c.x, y + c.y, z + c.z);
    }

    /** The flat offset `(int)p.x * strideYZ + (int)p.y * sizeZ + (int)p.z` of a corner given by a table point. */
    function Offset(p: Vec3): int
    {
      Trunc(p.x) * strideYZ + Trunc(p.y) * sizeZ + Trunc(p.z)
    }

    /** The end of a cube edge at table point p is the grid voxel `CornerOf(pos, p)`,
        read at the cube's flat index plus the point's offset. */
    lemma EdgeEndRead(g: Grid, t: Tables, x: int, y: int, z: int, p: Vec3)
      requires Mirrors(g, t) && CubeIn(g, x, y, z) && UnitPoint(p)
      ensures var c := CornerOf(Vec3(x as real, y as real, z as real), p);
        && g.InBounds(c) && 0 <= Index(x, y, z, sizeY, sizeZ) + Offset(p) < tsdf.Length
        && tsdf[Index(x, y, z, sizeY, sizeZ) + Offset(p)] == g.Value(c)
        && tsdfColors[Index(x, y, z, sizeY, sizeZ) + Offset(p)] == g.ColorAt(c)
    {
      var c := CornerOf(Vec3(x as real, y as real, z as real), p);
      assert c == Vec3i(x + Trunc(p.x), y + Trunc(p.y), z + Trunc(p.z));
      IndexShift(x, y, z, Trunc(p.x), Trunc(p.y), Trunc(p.z), sizeY, sizeZ);
      var k := Slot(c.x, c.y, c.z, sizeX, sizeY, sizeZ);
    }

    /** `InterpolateEdge(baseIdx, edge, out outColor)`: reads the edge's two end
        points from the flat edge table, recovers the cube from its flat index
        as `(baseIdx / strideYZ, (baseIdx % strideYZ) / sizeZ, baseIdx % sizeZ)`,
        and returns the world position and colour at the crossing. Without a
        degeneracy guard it needs the two corner values to differ. */
    function InterpolateEdge(ghost g: Grid, ghost t: Tables, ghost x: int, ghost y: int, ghost z: int, baseIdx: int, edge: int): (r: (Vec3, Color))
      requires Mirrors(g, t) && CubeIn(g, x, y, z) && baseIdx == Index(x, y, z, sizeY, sizeZ) && 0 <= edge < 12
      requires Gap(g, t, x, y, z, edge)
      reads tsdf, tsdfColors, cornerOffsets, edgeVertexPos, triangleTable
      ensures Vertex(r.0, r.1) == JobVertex(g, t, x, y, z, edge)
    {
      var p1 := edgeVertexPos[edge * 2 + 0];
      var p2 := edgeVertexPos[edge * 2 + 1];
      assert UnitPoint(p1) && UnitPoint(p2);
      EdgeEndRead(g, t, x, y, z, p1);
      EdgeEndRead(g, t, x, y, z, p2);
      UnflattenIndex(x, y, z, sizeX, sizeY, sizeZ);
      var off1 := Offset(p1);
      var off2 := Offset(p2);
      var s1 := tsdf[baseIdx + off1];
      var s2 := tsdf[baseIdx + off2];
      var alpha := Clamp(s1 / (s1 - s2), 0.0, 1.0);
      var local := LerpV(p1, p2, alpha);
      var cell := Vec3((baseIdx / strideYZ) as real, ((baseIdx % strideYZ) / sizeZ) as real, (baseIdx % sizeZ) as real);
      var world := Add(tsdfOrigin, Scale(Add(cell, local), resolution));
      var c1 := tsdfColors[baseIdx + off1];
      var c2 := tsdfColors[baseIdx + off2];
      (world, LerpC(c1, c2, alpha))
    }

    /** The first half of `Execute(cubeIdx)`: the cube number is decoded to its
        cell, the cell's flat index is taken, its eight corners are read
        through the corner offsets, and the configuration is formed from them. */
    method Classify(ghost g: Grid, ghost t: Tables, cubeIdx: int) returns (x: int, y: int, z: int, base: int, config: int)
      requires Mirrors(g, t) && 0 <= cubeIdx < CubeCount(g)
      ensures Vec3i(x, y, z) == CubeOf(g, cubeIdx) && base == Index(x, y, z, sizeY, sizeZ)
      ensures config == Config(CubeAt(g, t, x, y, z), threshold)
    {
      x, y, z, base := Decode(g, cubeIdx);
      var v0, v1, v2, v3, v4, v5, v6, v7 := ReadCorners(g, t, x, y, z, base);
      config := ConfigOf(v0, v1, v2, v3, v4, v5, v6, v7);
    }

    /** The eight corner reads `tsdf[base + cornerOffsets[i]]` of the cube at (x, y, z). */
    method ReadCorners(ghost g: Grid, ghost t: Tables, x: int, y: int, z: int, base: int)
      returns (v0: real, v1: real, v2: real, v3: real, v4: real, v5: real, v6: real, v7: real)
      requires Mirrors(g, t) && CubeIn(g, x, y, z) && base == Index(x, y, z, sizeY, sizeZ)
      ensures [v0, v1, v2, v3, v4, v5, v6, v7] == CubeAt(g, t, x, y, z)
    {
      CornersRead(g, t, x, y, z, base);
      v0 := tsdf[base + cornerOffsets[0]];
      v1 := tsdf[base + cornerOffsets[1]];
      v2 := tsdf[base + cornerOffsets[2]];
      v3 := tsdf[base + cornerOffsets[3]];
      v4 := tsdf[base + cornerOffsets[4]];
      v5 := tsdf[base + cornerOffsets[5]];
      v6 := tsdf[base + cornerOffsets[6]];
      v7 := tsdf[base + cornerOffsets[7]];
      CubeValues(g, t, x, y, z, [v0, v1, v2, v3, v4, v5, v6, v7]);
    }

    /** Every corner of the cube at (x, y, z) is read inside the flat grid and
        holds the grid's corner value. */
    lemma CornersRead(g: Grid, t: Tables, x: int, y: int, z: int, base: int)
      requires Mirrors(g, t) && CubeIn(g, x, y, z) && base == Index(x, y, z, sizeY, sizeZ)
      ensures forall i :: 0 <= i < 8 ==>
        0 <= base + cornerOffsets[i] < tsdf.Length && tsdf[base + cornerOffsets[i]] == CornerValue(g, t, x, y, z, i)
    {
      forall i | 0 <= i < 8
        ensures 0 <= base + cornerOffsets[i] < tsdf.Length && tsdf[base + cornerOffsets[i]] == CornerValue(g, t, x, y, z, i)
      {
        CornerRead(g, t, x, y, z, i);
      }
    }

    /** `z = cubeIdx % zCount`, `y = (cubeIdx / zCount) % yCount`,
        `x = cubeIdx / (zCount * yCount)` and the flat index of that cell. */
    method Decode(ghost g: Grid, cubeIdx: int) returns (x: int, y: int, z: int, base: int)
      requires g.Valid() && g.sy == sizeY && g.sz == sizeZ && strideYZ == sizeY * sizeZ
      requires 0 <= cubeIdx < CubeCount(g)
      ensures Vec3i(x, y, z) == CubeOf(g, cubeIdx) && base == Index(x, y, z, sizeY, sizeZ)
    {
      ghost var c := CubeOf(g, cubeIdx);
      var zCount := sizeZ - 1;
      var yCount := sizeY - 1;
      z := cubeIdx % zCount;
      y := (cubeIdx / zCount) % yCount;
      x := cubeIdx / (zCount * yCount);
      base := x * strideYZ + y * sizeZ + z;
    }

    /** The configuration of a cube from its eight corner values: bit i is set
        when corner i is above `threshold`. */
    method ConfigOf(v0: real, v1: real, v2: real, v3: real, v4: real, v5: real, v6: real, v7: real) returns (config: int)
      ensures config == Config([v0, v1, v2, v3, v4, v5, v6, v7], threshold)
    {
      var bits: bv8 := 0;
      if v0 > threshold { bits := bits | (1 << 0); }
      if v1 > threshold { bits := bits | (1 << 1); }
      if v2 > threshold { bits := bits | (1 << 2); }
      if v3 > threshold { bits := bits | (1 << 3); }
      if v4 > threshold { bits := bits | (1 << 4); }
      if v5 > threshold { bits := bits | (1 << 5); }
      if v6 > threshold { bits := bits | (1 << 6); }
      if v7 > threshold { bits := bits | (1 << 7); }
      config := bits as int;
      ghost var cube := [v0, v1, v2, v3, v4, v5, v6, v7];
      assert bits == ConfigBits(cube, threshold);
      ConfigIsBits(cube, threshold);
    }

    /** `Execute(cubeIdx)`: the cube's whole triangles are appended to the
        output arrays at the counter, which moves past them. */
    method Execute(ghost g: Grid, ghost t: Tables, cubeIdx: int)
      requires Mirrors(g, t) && Outputs() && 0 <= cubeIdx < CubeCount(g)
      requires counter[0] + 15 <= outVerts.Length
      modifies outVerts, outCols, counter
      ensures Mirrors(g, t) && Outputs()
      ensures var out := CubeJob(g, t, cubeIdx);
        && counter[0] == old(counter[0]) + |out|
        && outVerts[..counter[0]] == old(outVerts[..counter[0]]) + Positions(out)
        && outCols[..counter[0]] == old(outCols[..counter[0]]) + Colors(out)
    {
      var x, y, z, base, config := Classify(g, t, cubeIdx);
      if config == 0 || config == 255 {
        return;
      }
      StraddleGaps(g, t, x, y, z);
      EmitTriangles(g, t, x, y, z, base, config);
    }

    /** `Schedule(cubeCount, 64).Complete()`, with the cubes run one after
        another in number order: the counter ends at the number of vertices
        the job emits for the whole grid, and the output arrays hold them. */
    method Run(ghost g: Grid, ghost t: Tables, cubeCount: int) returns (ghost outs: seq<seq<Vertex>>)
      requires Mirrors(g, t) && Outputs() && cubeCount == CubeCount(g)
      requires counter[0] == 0 && 15 * cubeCount <= outVerts.Length
      modifies outVerts, outCols, counter
      ensures |outs| == cubeCount && forall k {:trigger CubeJob(g, t, k)} :: 0 <= k < cubeCount ==> outs[k] == CubeJob(g, t, k)
      ensures Wrote(0, [], [], Flatten(outs))
    {
      var i := 0;
      ghost var done: seq<Vertex> := [];
      outs := [];
      WroteNothing();
      while i < cubeCount
        invariant Mirrors(g, t)
        invariant 0 <= i <= cubeCount && |outs| == i && done == Flatten(outs) && |done| <= 15 * i
        invariant forall k {:trigger CubeJob(g, t, k)} :: 0 <= k < i ==> outs[k] == CubeJob(g, t, k)
        invariant Wrote(0, [], [], done)
      {
        var out := RunCube(g, t, i, done);
        FlattenSnoc(outs, out);
        done, outs := done + out, outs + [out];
        i := i + 1;
      }
    }

    /** Before the first cube the counter is 0 and nothing is written. */
    lemma WroteNothing()
      requires Outputs() && counter[0] == 0
      ensures Wrote(0, [], [], [])
    {
      assert outVerts[..0] == [] + Positions([]);
      assert outCols[..0] == [] + Colors([]);
    }

    /** One cube of `Run`: `Execute(i)` appends what the job emits for cube i. */
    method RunCube(ghost g: Grid, ghost t: Tables, i: int, ghost done: seq<Vertex>) returns (ghost out: seq<Vertex>)
      requires Mirrors(g, t) && 0 <= i < CubeCount(g)
      requires Wrote(0, [], [], done) && counter[0] + 15 <= outVerts.Length
      modifies outVerts, outCols, counter
      ensures Mirrors(g, t) && out == CubeJob(g, t, i) && Wrote(0, [], [], done + out)
    {
      out := CubeJob(g, t, i);
      Execute(g, t, i);
      AppendedAll([], [], done, out);
    }

    /** The output arrays hold, past the `c0` entries they held before, the
        positions and colours of `done`. */
    ghost predicate Wrote(c0: int, vs0: seq<Vec3>, cs0: seq<Color>, done: seq<Vertex>)
      reads counter, outVerts, outCols
    {
      && Outputs() && counter[0] == c0 + |done| && counter[0] <= outVerts.Length
      && outVerts[..counter[0]] == vs0 + Positions(done)
      && outCols[..counter[0]] == cs0 + Colors(done)
    }

    /** The triangle loop of `Execute`: entries `triBase + tt`, `+ 1`, `+ 2` are
        read for tt = 0, 3, …, 15 (the last triple reaches two entries into the
        next row), and the loop stops at the first triple holding a `-1`. */
    method EmitTriangles(ghost g: Grid, ghost t: Tables, x: int, y: int, z: int, base: int, config: int)
      requires Mirrors(g, t) && Outputs() && CubeIn(g, x, y, z) && base == Index(x, y, z, sizeY, sizeZ)
      requires 0 <= config < 255 && RowGaps(g, t, x, y, z, t.triangles[config])
      requires counter[0] + 15 <= outVerts.Length
      modifies outVerts, outCols, counter
      ensures Mirrors(g, t)
      ensures Wrote(old(counter[0]), old(outVerts[..counter[0]]), old(outCols[..counter[0]]), Triples(g, t, x, y, z, t.triangles[config], 0))
    {
      ghost var row := t.triangles[config];
      ghost var all := Triples(g, t, x, y, z, row, 0);
      ghost var c0 := counter[0];
      ghost var vs0, cs0 := outVerts[..c0], outCols[..c0];
      var triBase := config * 16;
      var tt := 0;
      ghost var m := 0;
      ghost var done: seq<Vertex> := [];
      assert all == done + all;
      while tt < 16
        invariant tt == 3 * m && 0 <= m <= 6 && Mirrors(g, t)
        invariant Wrote(c0, vs0, cs0, done) && all == done + Triples(g, t, x, y, z, row, tt)
      {
        var stop;
        stop, done := EmitTriangle(g, t, x, y, z, base, config, triBase, tt, c0, vs0, cs0, done);
        if stop {
          break;
        }
        tt := tt + 3;
        m := m + 1;
      }
      assert done + [] == done;
    }

    /** One pass of the triangle loop at entry tt of the row: the three
        entries are read, and unless one is `-1` the three vertices are
        interpolated and written to three reserved slots. */
    method EmitTriangle(ghost g: Grid, ghost t: Tables, x: int, y: int, z: int, base: int, ghost config: int, triBase: int, tt: int,
                        ghost c0: int, ghost vs0: seq<Vec3>, ghost cs0: seq<Color>, ghost done: seq<Vertex>)
      returns (stop: bool, ghost done': seq<Vertex>)
      requires Mirrors(g, t) && CubeIn(g, x, y, z) && base == Index(x, y, z, sizeY, sizeZ)
      requires 0 <= config < 255 && triBase == config * 16 && 0 <= tt <= 15
      requires RowGaps(g, t, x, y, z, t.triangles[config])
      requires Wrote(c0, vs0, cs0, done) && c0 + 15 <= outVerts.Length
      requires Triples(g, t, x, y, z, t.triangles[config], 0) == done + Triples(g, t, x, y, z, t.triangles[config], tt)
      modifies outVerts, outCols, counter
      ensures Mirrors(g, t) && Wrote(c0, vs0, cs0, done')
      ensures stop ==> done' == Triples(g, t, x, y, z, t.triangles[config], 0)
      ensures !stop ==> Triples(g, t, x, y, z, t.triangles[config], 0) == done' + Triples(g, t, x, y, z, t.triangles[config], tt + 3)
    {
      var e0, e1, e2, ok := ReadTriple(g, t, x, y, z, config, triBase, tt);
      if !ok {
        assert done + [] == done;
        return true, done;
      }
      done' := EmitThree(g, t, x, y, z, base, e0, e1, e2, c0, vs0, cs0, done);
      Assoc(done, done'[|done|..], Triples(g, t, x, y, z, t.triangles[config], tt + 3));
      stop := false;
    }

    /** The three reads `triangleTable[triBase + tt + 0]`, `+ 1`, `+ 2`: either
        one of them is `-1` and the walk of the row ends at tt, or they are the
        three entries of the row at tt, naming edges whose corners differ. */
    method ReadTriple(ghost g: Grid, ghost t: Tables, x: int, y: int, z: int, ghost config: int, triBase: int, tt: int)
      returns (e0: int, e1: int, e2: int, ok: bool)
      requires g.Valid() && ValidTables(t) && CubeIn(g, x, y, z) && TriangleTable(triangleTable, t)
      requires 0 <= config < 255 && triBase == config * 16 && 0 <= tt <= 15
      requires RowGaps(g, t, x, y, z, t.triangles[config])
      ensures ok <==> e0 >= 0 && e1 >= 0 && e2 >= 0
      ensures !ok ==> Triples(g, t, x, y, z, t.triangles[config], tt) == []
      ensures ok ==> 0 <= e0 < 12 && 0 <= e1 < 12 && 0 <= e2 < 12
      ensures ok ==> Gap(g, t, x, y, z, e0) && Gap(g, t, x, y, z, e1) && Gap(g, t, x, y, z, e2)
      ensures ok ==> (Triples(g, t, x, y, z, t.triangles[config], tt)
                       == [JobVertex(g, t, x, y, z, e0), JobVertex(g, t, x, y, z, e1), JobVertex(g, t, x, y, z, e2)]
                        + Triples(g, t, x, y, z, t.triangles[config], tt + 3))
    {
      ghost var row := t.triangles[config];
      e0 := triangleTable[triBase + tt + 0];
      e1 := triangleTable[triBase + tt + 1];
      e2 := triangleTable[triBase + tt + 2];
      TableEntry(triangleTable, t, config, triBase + tt + 0, tt);
      if tt < 15 { TableEntry(triangleTable, t, config, triBase + tt + 1, tt + 1); }
      if tt < 14 { TableEntry(triangleTable, t, config, triBase + tt + 2, tt + 2); }
      ok := e0 >= 0 && e1 >= 0 && e2 >= 0;
      if !ok {
        TripleEnd(g, t, x, y, z, row, tt, e0, e1, e2);
      } else {
        TripleNext(g, t, x, y, z, row, tt, e0, e1, e2);
      }
    }

    /** The three vertices of a triangle, interpolated and written to three
        reserved slots. */
    method EmitThree(ghost g: Grid, ghost t: Tables, x: int, y: int, z: int, base: int, e0: int, e1: int, e2: int,
                     ghost c0: int, ghost vs0: seq<Vec3>, ghost cs0: seq<Color>, ghost done: seq<Vertex>)
      returns (ghost done': seq<Vertex>)
      requires Mirrors(g, t) && CubeIn(g, x, y, z) && base == Index(x, y, z, sizeY, sizeZ)
      requires 0 <= e0 < 12 && 0 <= e1 < 12 && 0 <= e2 < 12
      requires Gap(g, t, x, y, z, e0) && Gap(g, t, x, y, z, e1) && Gap(g, t, x, y, z, e2)
      requires Wrote(c0, vs0, cs0, done) && c0 + |done| + 3 <= outVerts.Length
      modifies outVerts, outCols, counter
      ensures Mirrors(g, t) && Wrote(c0, vs0, cs0, done')
      ensures done' == done + [JobVertex(g, t, x, y, z, e0), JobVertex(g, t, x, y, z, e1), JobVertex(g, t, x, y, z, e2)]
    {
      var r0 := InterpolateEdge(g, t, x, y, z, base, e0);
      var r1 := InterpolateEdge(g, t, x, y, z, base, e1);
      var r2 := InterpolateEdge(g, t, x, y, z, base, e2);
      var wp0, c0', wp1, c1', wp2, c2' := r0.0, r0.1, r1.0, r1.1, r2.0, r2.1;
      ghost var tri := [Vertex(wp0, c0'), Vertex(wp1, c1'), Vertex(wp2, c2')];
      Reserve(wp0, c0', wp1, c1', wp2, c2');
      Appended(vs0, cs0, done, tri);
      done' := done + tri;
    }

    /** `Interlocked.Add(ref counter[0], 3) - 3` and the three writes into the
        reserved slots. */
    method Reserve(wp0: Vec3, c0: Color, wp1: Vec3, c1: Color, wp2: Vec3, c2: Color)
      requires Outputs() && counter[0] + 3 <= outVerts.Length
      modifies outVerts, outCols, counter
      ensures Outputs() && counter[0] == old(counter[0]) + 3
      ensures outVerts[..counter[0]] == old(outVerts[..counter[0]]) + [wp0, wp1, wp2]
      ensures outCols[..counter[0]] == old(outCols[..counter[0]]) + [c0, c1, c2]
    {
      counter[0] := counter[0] + 3;
      var baseIdx3 := counter[0] - 3;
      outVerts[baseIdx3 + 0] := wp0;
      outCols[baseIdx3 + 0] := c0;
      outVerts[baseIdx3 + 1] := wp1;
      outCols[baseIdx3 + 1] := c1;
      outVerts[baseIdx3 + 2] := wp2;
      outCols[baseIdx3 + 2] := c2;
    }
  }
  /** Lists that held `vs0 + Positions(done)` and gain the three positions of
      `tri` hold `vs0 + Positions(done + tri)`; likewise for colours. */
  lemma Appended(vs0: seq<Vec3>, cs0: seq<Color>, done: seq<Vertex>, tri: seq<Vertex>)
    requires |tri| == 3
    ensures vs0 + Positions(done) + [tri[0].pos, tri[1].pos, tri[2].pos] == vs0 + Positions(done + tri)
    ensures cs0 + Colors(done) + [tri[0].color, tri[1].color, tri[2].color] == cs0 + Colors(done + tri)
  {
    assert Positions(done + tri) == Positions(done) + [tri[0].pos, tri[1].pos, tri[2].pos];
    assert Colors(done + tri) == Colors(done) + [tri[0].color, tri[1].color, tri[2].color];
  }

  /** Positions and colours of a concatenation are the concatenations. */
  lemma PositionsConcat(a: seq<Vertex>, b: seq<Vertex>)
    ensures Positions(a + b) == Positions(a) + Positions(b)
    ensures Colors(a + b) == Colors(a) + Colors(b)
  {
  }

  /** Lists that held `vs0 + Positions(done)` and gain the positions of `out`
      hold `vs0 + Positions(done + out)`; likewise for colours. */
  lemma AppendedAll(vs0: seq<Vec3>, cs0: seq<Color>, done: seq<Vertex>, out: seq<Vertex>)
    ensures vs0 + Positions(done) + Positions(out) == vs0 + Positions(done + out)
    ensures cs0 + Colors(done) + Colors(out) == cs0 + Colors(done + out)
  {
    PositionsConcat(done, out);
  }

  /** Proof helper: regrouping a concatenation of three runs, which keeps the
      step of `EmitTriangle` small. */
  lemma Assoc<T>(a: seq<T>, b: seq<T>, c: seq<T>)
    ensures (a + b) + c == a + (b + c)
  {
  }
}
