/** The marching-cubes lookup tables (cube corners, cube edges and the
    256 × 16 triangle table) and the 8-bit configuration index of a cube.
    The table values themselves are not part of this model: every operation
    takes a `Tables` value and states the assumptions it relies on through
    `ValidTables` (and, for the job without a degeneracy guard, `Straddles`). */
module MarchingTable {
  import opened Geometry

  /** Cube edge `e` joins the corner offsets `p1` and `p2` (`Edges[e, 0]`, `Edges[e, 1]`). */
  datatype Edge = Edge(p1: Vec3, p2: Vec3)

  /** `Corners[8]`, `Edges[12, 2]` and `Triangles[256, 16]`. */
  datatype Tables = Tables(corners: seq<Vec3i>, edges: seq<Edge>, triangles: seq<seq<int>>)

  predicate UnitCorner(c: Vec3i)
  {
    0 <= c.x <= 1 && 0 <= c.y <= 1 && 0 <= c.z <= 1
  }

  predicate UnitPoint(p: Vec3)
  {
    (p.x == 0.0 || p.x == 1.0) && (p.y == 0.0 || p.y == 1.0) && (p.z == 0.0 || p.z == 1.0)
  }

  /** One row of the triangle table: sixteen edge numbers in [-1, 11], ended by
      `-1` sentinels that, once started, fill the rest of the row; entry 15 is
      always a sentinel, so a row names at most five triangles. */
  ghost predicate ValidRow(row: seq<int>)
  {
    && |row| == 16
    && (forall j :: 0 <= j < 16 ==> -1 <= row[j] <= 11)
    && row[15] == -1
    && (forall j, k :: 0 <= j <= k < 16 && row[j] == -1 ==> row[k] == -1)
  }

  /** One corner offset is `(1, 1, 1)`, the corner opposite the cube's lowest one. */
  ghost predicate FarCorner(t: Tables)
  {
    exists i :: 0 <= i < |t.corners| && t.corners[i] == Vec3i(1, 1, 1)
  }

  /** The shape the extractors assume of the tables. */
  ghost predicate ValidTables(t: Tables)
  {
    && |t.corners| == 8
    && (forall i :: 0 <= i < 8 ==> UnitCorner(t.corners[i]))
    && |t.edges| == 12
    && (forall e :: 0 <= e < 12 ==> UnitPoint(t.edges[e].p1) && UnitPoint(t.edges[e].p2))
    && |t.triangles| == 256
    && (forall c :: 0 <= c < 256 ==> ValidRow(t.triangles[c]))
  }

  /** Bit i of a configuration index. */
  predicate Bit(c: bv8, i: nat)
    requires i < 8
  {
    c & ((1 as bv8) << i) != 0
  }

  /** Edge e of the table joins corner i to corner j. */
  ghost predicate Joins(t: Tables, e: int, i: int, j: int)
    requires ValidTables(t) && 0 <= e < 12 && 0 <= i < 8 && 0 <= j < 8
  {
    ToReal(t.corners[i]) == t.edges[e].p1 && ToReal(t.corners[j]) == t.edges[e].p2
  }

  /** Entry k of row c, when it names an edge, names one joining a corner above
      the threshold to one that is not. */
  ghost predicate Straddling(t: Tables, c: int, k: int)
    requires ValidTables(t) && 0 <= c < 256 && 0 <= k < 16
  {
    t.triangles[c][k] >= 0 ==>
      exists i, j :: 0 <= i < 8 && 0 <= j < 8 && Joins(t, t.triangles[c][k], i, j) && Bit(c as bv8, i) != Bit(c as bv8, j)
  }

  /** Every edge that a configuration names straddles the threshold, which is
      what makes the interpolation denominator non-zero. */
  ghost predicate Straddles(t: Tables)
    requires ValidTables(t)
  {
    forall c, k :: 0 <= c < 256 && 0 <= k < 16 ==> Straddling(t, c, k)
  }

  /** The configuration of a cube as a bit set: bit i is `cube[i] > threshold`. */
  function ConfigBits(cube: seq<real>, threshold: real): bv8
    requires |cube| == 8
  {
    (if cube[0] > threshold then 1 else 0) | (if cube[1] > threshold then 2 else 0)
    | (if cube[2] > threshold then 4 else 0) | (if cube[3] > threshold then 8 else 0)
    | (if cube[4] > threshold then 16 else 0) | (if cube[5] > threshold then 32 else 0)
    | (if cube[6] > threshold then 64 else 0) | (if cube[7] > threshold then 128 else 0)
  }

  /** `1 << i`. */
  function Pow2(i: nat): (p: nat)
    ensures p >= 1
  {
    if i == 0 then 1 else 2 * Pow2(i - 1)
  }

  /** The index built from corners 0 … n-1: corner i contributes `1 << i` when it is above the threshold. */
  function ConfigUpTo(cube: seq<real>, threshold: real, n: nat): (c: int)
    requires |cube| == 8 && n <= 8
    ensures 0 <= c < Pow2(n)
  {
    if n == 0 then 0 else ConfigUpTo(cube, threshold, n - 1) + (if cube[n - 1] > threshold then Pow2(n - 1) else 0)
  }

  /** The configuration index used to pick a row of the triangle table. */
  function Config(cube: seq<real>, threshold: real): (c: int)
    requires |cube| == 8
    ensures 0 <= c < 256
  {
    ConfigUpTo(cube, threshold, 8)
  }

  /** Corner i's contribution to the configuration index, as a multiple of `1 << i`. */
  function Above(cube: seq<real>, threshold: real, i: nat): int
    requires |cube| == 8 && i < 8
  {
    if cube[i] > threshold then 1 else 0
  }

  /** The index is the sum of the corner contributions. */
  lemma ConfigSum(cube: seq<real>, threshold: real)
    requires |cube| == 8
    ensures Config(cube, threshold)
         == Above(cube, threshold, 0) + 2 * Above(cube, threshold, 1) + 4 * Above(cube, threshold, 2) + 8 * Above(cube, threshold, 3)
          + 16 * Above(cube, threshold, 4) + 32 * Above(cube, threshold, 5) + 64 * Above(cube, threshold, 6) + 128 * Above(cube, threshold, 7)
  {
    assert Pow2(1) == 2 && Pow2(3) == 8 && Pow2(5) == 32 && Pow2(7) == 128;
    assert ConfigUpTo(cube, threshold, 2) == Above(cube, threshold, 0) + 2 * Above(cube, threshold, 1);
    assert ConfigUpTo(cube, threshold, 4) == ConfigUpTo(cube, threshold, 2) + 4 * Above(cube, threshold, 2) + 8 * Above(cube, threshold, 3);
    assert ConfigUpTo(cube, threshold, 6) == ConfigUpTo(cube, threshold, 4) + 16 * Above(cube, threshold, 4) + 32 * Above(cube, threshold, 5);
    assert ConfigUpTo(cube, threshold, 7) == ConfigUpTo(cube, threshold, 6) + 64 * Above(cube, threshold, 6);
    assert ConfigUpTo(cube, threshold, 8) == ConfigUpTo(cube, threshold, 7) + 128 * Above(cube, threshold, 7);
  }

  /** The index is the bit set whose bit i is `cube[i] > threshold`. */
  lemma ConfigIsBits(cube: seq<real>, threshold: real)
    requires |cube| == 8
    ensures Config(cube, threshold) == ConfigBits(cube, threshold) as int
  {
    ConfigSum(cube, threshold);
  }

  /** Bit i of the configuration is set exactly when corner i is above the threshold. */
  lemma ConfigBit(cube: seq<real>, threshold: real, i: nat)
    requires |cube| == 8 && i < 8
    ensures Bit(ConfigBits(cube, threshold), i) <==> cube[i] > threshold
  {
  }

  /** Configuration 0 means no corner is above the threshold, 255 that all are:
      the two configurations the extractors skip are the cubes the surface does not cross. */
  lemma ConfigEmptyOrFull(cube: seq<real>, threshold: real)
    requires |cube| == 8
    ensures Config(cube, threshold) == 0 <==> forall i :: 0 <= i < 8 ==> cube[i] <= threshold
    ensures Config(cube, threshold) == 255 <==> forall i :: 0 <= i < 8 ==> cube[i] > threshold
  {
    ConfigSum(cube, threshold);
  }

  /** Converting a bit set to its index and back is the identity. */
  lemma BitsRoundTrip(b: bv8)
    ensures 0 <= b as int < 256 && (b as int) as bv8 == b
  {
  }

  /** Setting bit i adds exactly bit i. */
  lemma SetBit(b: bv8, i: nat)
    requires i < 8
    ensures forall j :: 0 <= j < 8 ==> (Bit(b | (1 << i), j) <==> Bit(b, j) || j == i)
  {
    forall j | 0 <= j < 8
      ensures Bit(b | (1 << i), j) <==> Bit(b, j) || j == i
    {
    }
  }

  /** Two bit sets with the same eight bits are equal. */
  lemma BitsDetermine(b: bv8, b': bv8)
    requires forall j :: 0 <= j < 8 ==> (Bit(b, j) <==> Bit(b', j))
    ensures b == b'
  {
    assert Bit(b, 0) == Bit(b', 0) && Bit(b, 1) == Bit(b', 1) && Bit(b, 2) == Bit(b', 2) && Bit(b, 3) == Bit(b', 3);
    assert Bit(b, 4) == Bit(b', 4) && Bit(b, 5) == Bit(b', 5) && Bit(b, 6) == Bit(b', 6) && Bit(b, 7) == Bit(b', 7);
  }
}
