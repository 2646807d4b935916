/** Row-major flattening of a voxel box `sizeX × sizeY × sizeZ` onto
    `[0, sizeX*sizeY*sizeZ)`, and the cube decode the parallel extractor uses. */
module VoxelIndex {
  import opened Geometry

  predicate InBox(x: int, y: int, z: int, sx: int, sy: int, sz: int)
  {
    0 <= x < sx && 0 <= y < sy && 0 <= z < sz
  }

  /** `x * strideYZ + y * sizeZ + z` with `strideYZ == sizeY * sizeZ`. */
  function Index(x: int, y: int, z: int, sy: int, sz: int): int
  {
    x * (sy * sz) + y * sz + z
  }

  /** The inverse the parallel extractor applies to a flat voxel index:
      `(k / strideYZ, (k % strideYZ) / sizeZ, k % sizeZ)`. */
  function Unflatten(k: int, sy: int, sz: int): Vec3i
    requires sy > 0 && sz > 0
  {
    Vec3i(k / (sy * sz), (k % (sy * sz)) / sz, k % sz)
  }

  lemma MulNonneg(a: int, b: int)
    requires a >= 0 && b >= 0
    ensures a * b >= 0
  {
  }

  /** A factor of at least one does not shrink a non-negative quantity. */
  lemma MulAtLeast(m: int, d: int)
    requires m >= 1 && d >= 0
    ensures m * d >= d
  {
    MulNonneg(m - 1, d);
    assert (m - 1) * d == m * d - d;
  }

  /** Euclidean division is determined by quotient and remainder. */
  lemma DivModUnique(k: int, d: int, q: int, r: int)
    requires d > 0 && 0 <= r < d && k == q * d + r
    ensures k / d == q && k % d == r
  {
    var q', r' := k / d, k % d;
    assert k == q' * d + r';
    assert (q - q') * d == q * d - q' * d;
    if q > q' {
      MulAtLeast(q - q', d);
      assert false;
    } else if q < q' {
      MulAtLeast(q' - q, d);
      assert false;
    }
  }

  lemma MulLeft(a: int, b: int, c: int)
    requires 0 <= a < b && c >= 0
    ensures a * c + c <= b * c
  {
    MulAtLeast(b - a, c);
    assert (b - a) * c == b * c - a * c;
  }

  /** A cell of the box has an index in `[0, sizeX*sizeY*sizeZ)`. */
  lemma IndexInRange(x: int, y: int, z: int, sx: int, sy: int, sz: int)
    requires InBox(x, y, z, sx, sy, sz)
    ensures 0 <= y * sz + z < sy * sz
    ensures 0 <= Index(x, y, z, sy, sz) < sx * sy * sz
  {
    MulLeft(y, sy, sz);
    MulLeft(x, sx, sy * sz);
    assert x * (sy * sz) >= 0;
    assert sx * (sy * sz) == sx * sy * sz;
  }

  /** Unflattening recovers the cell a flat index came from. */
  lemma UnflattenIndex(x: int, y: int, z: int, sx: int, sy: int, sz: int)
    requires InBox(x, y, z, sx, sy, sz)
    ensures Unflatten(Index(x, y, z, sy, sz), sy, sz) == Vec3i(x, y, z)
  {
    var k := Index(x, y, z, sy, sz);
    IndexInRange(x, y, z, sx, sy, sz);
    DivModUnique(k, sy * sz, x, y * sz + z);
    DivModUnique(y * sz + z, sz, y, z);
    assert k == (x * sy + y) * sz + z;
    DivModUnique(k, sz, x * sy + y, z);
  }

  /** Every flat index in range is the index of exactly the cell it unflattens to. */
  lemma IndexUnflatten(k: int, sx: int, sy: int, sz: int)
    requires sx > 0 && sy > 0 && sz > 0
    requires 0 <= k < sx * sy * sz
    ensures var c := Unflatten(k, sy, sz); InBox(c.x, c.y, c.z, sx, sy, sz) && Index(c.x, c.y, c.z, sy, sz) == k
  {
    var s := sy * sz;
    MulAtLeast(sy, sz);
    MulAssoc(sx, sy, sz);
    QuotientBound(k, s, sx);
    QuotientBound(k % s, sz, sy);
    var x, y, z := k / s, (k % s) / sz, (k % s) % sz;
    assert Index(x, y, z, sy, sz) == k;
    UnflattenIndex(x, y, z, sx, sy, sz);
  }

  /** Arithmetic proof helper: regrouping a product of three factors, which the
      solver does not find on its own under the index arithmetic. */
  lemma MulAssoc(a: int, b: int, c: int)
    ensures a * (b * c) == (a * b) * c
  {
  }

  /** Arithmetic proof helper: distributing a product over a sum. */
  lemma MulDistrib(a: int, b: int, c: int)
    ensures (a + b) * c == a * c + b * c
  {
  }

  /** The index after the last of row y is the first of row y + 1. */
  lemma NextRow(x: int, y: int, sy: int, sz: int)
    ensures Index(x, y, sz, sy, sz) == Index(x, y + 1, 0, sy, sz)
  {
    MulDistrib(y, 1, sz);
  }

  /** The index after the last row of slice x is the first of slice x + 1. */
  lemma NextSlice(x: int, sy: int, sz: int)
    ensures Index(x, sy, 0, sy, sz) == Index(x + 1, 0, 0, sy, sz)
  {
    MulDistrib(x, 1, sy * sz);
  }

  /** Loops over x, then y, then z across an `xs × ys × zs` box of cells have
      reached (x, y, z): a row or a cell is only under way inside the loops' range. */
  predicate OnWalk(x: int, y: int, z: int, xs: int, ys: int, zs: int)
  {
    && 0 <= x <= xs && 0 <= y <= ys && 0 <= z <= zs
    && (y > 0 ==> x < xs)
    && (z > 0 ==> x < xs && y < ys)
  }

  /** Outputs of the cells those loops visit before (x, y, z), in visiting order. */
  function RowMajor<T>(g: (int, int, int) -> seq<T>, x: int, y: int, z: int, xs: int, ys: int, zs: int): seq<T>
    requires OnWalk(x, y, z, xs, ys, zs)
    decreases x, y, z
  {
    if z > 0 then RowMajor(g, x, y, z - 1, xs, ys, zs) + g(x, y, z - 1)
    else if y > 0 then RowMajor(g, x, y - 1, zs, xs, ys, zs)
    else if x > 0 then RowMajor(g, x - 1, ys, 0, xs, ys, zs)
    else []
  }

  /** The outputs of a run of cells, one after another. */
  ghost function Flatten<T>(outs: seq<seq<T>>): seq<T>
  {
    if |outs| == 0 then [] else Flatten(outs[..|outs| - 1]) + outs[|outs| - 1]
  }

  /** Appending one more output appends it to the concatenation. */
  lemma FlattenSnoc<T>(outs: seq<seq<T>>, out: seq<T>)
    ensures Flatten(outs + [out]) == Flatten(outs) + out
  {
    assert (outs + [out])[..|outs|] == outs;
  }

  /** Position `Index(i, j, k)` of `outs` holds the output of cell (i, j, k). */
  ghost predicate IndexOrder<T>(outs: seq<seq<T>>, g: (int, int, int) -> seq<T>, xs: int, ys: int, zs: int)
  {
    forall i, j, k {:trigger g(i, j, k)} :: InBox(i, j, k, xs, ys, zs) && 0 <= Index(i, j, k, ys, zs) < |outs| ==>
      outs[Index(i, j, k, ys, zs)] == g(i, j, k)
  }

  /** Where the cell numbered `Index(x, y, z)` has the output of cell (x, y, z),
      the outputs in number order are the outputs in visiting order: the loops
      visit the cells in increasing `Index`. */
  lemma {:induction false} WalkFlatten<T>(outs: seq<seq<T>>, g: (int, int, int) -> seq<T>, x: int, y: int, z: int, xs: int, ys: int, zs: int)
    requires OnWalk(x, y, z, xs, ys, zs) && |outs| == xs * ys * zs && IndexOrder(outs, g, xs, ys, zs)
    ensures 0 <= Index(x, y, z, ys, zs) <= |outs|
    ensures Flatten(outs[..Index(x, y, z, ys, zs)]) == RowMajor(g, x, y, z, xs, ys, zs)
    decreases x, y, z
  {
    if z > 0 {
      WalkFlatten(outs, g, x, y, z - 1, xs, ys, zs);
      var n := Index(x, y, z - 1, ys, zs);
      IndexInRange(x, y, z - 1, xs, ys, zs);
      assert outs[n] == g(x, y, z - 1);
      assert outs[..n + 1][..n] == outs[..n];
    } else if y > 0 {
      WalkFlatten(outs, g, x, y - 1, zs, xs, ys, zs);
      NextRow(x, y - 1, ys, zs);
    } else if x > 0 {
      WalkFlatten(outs, g, x - 1, ys, 0, xs, ys, zs);
      NextSlice(x - 1, ys, zs);
      MulAssoc(x - 1, ys, zs);
      MulLeft(x - 1, xs, ys * zs);
      MulAssoc(xs, ys, zs);
    } else {
      MulNonneg(xs, ys);
      MulNonneg(xs * ys, zs);
    }
  }

  /** A quotient of a value in `[0, n*d)` by d lies in `[0, n)`. */
  lemma QuotientBound(k: int, d: int, n: int)
    requires d > 0 && 0 <= k < n * d
    ensures 0 <= k / d < n
  {
    var q := k / d;
    assert k == q * d + k % d;
    if q < 0 {
      MulAtLeast(-q, d);
    }
    if q >= n {
      MulAtLeast(q - n + 1, d);
    }
  }

  /** Two cells of the box with the same index are the same cell. */
  lemma IndexInjective(x: int, y: int, z: int, x': int, y': int, z': int, sx: int, sy: int, sz: int)
    requires InBox(x, y, z, sx, sy, sz) && InBox(x', y', z', sx, sy, sz)
    requires Index(x, y, z, sy, sz) == Index(x', y', z', sy, sz)
    ensures x == x' && y == y' && z == z'
  {
    UnflattenIndex(x, y, z, sx, sy, sz);
    UnflattenIndex(x', y', z', sx, sy, sz);
  }

  /** The flat slot of a cell of the box: its index, inside `[0, sizeX*sizeY*sizeZ)`. */
  function Slot(x: int, y: int, z: int, sx: int, sy: int, sz: int): (k: int)
    requires InBox(x, y, z, sx, sy, sz)
    ensures k == Index(x, y, z, sy, sz) && 0 <= k < sx * sy * sz
  {
    IndexInRange(x, y, z, sx, sy, sz);
    Index(x, y, z, sy, sz)
  }

  /** No other cell of the box shares the index of cell `(x0, y0, z0)`. */
  lemma IndexOnly(x0: int, y0: int, z0: int, sx: int, sy: int, sz: int)
    requires InBox(x0, y0, z0, sx, sy, sz)
    ensures forall x, y, z :: InBox(x, y, z, sx, sy, sz) && Index(x, y, z, sy, sz) == Index(x0, y0, z0, sy, sz) ==>
      x == x0 && y == y0 && z == z0
  {
    forall x, y, z | InBox(x, y, z, sx, sy, sz) && Index(x, y, z, sy, sz) == Index(x0, y0, z0, sy, sz)
      ensures x == x0 && y == y0 && z == z0
    {
      IndexInjective(x, y, z, x0, y0, z0, sx, sy, sz);
    }
  }

  /** The cell `(x,y,z)` of cube number `cubeIdx` as the parallel job decodes it:
      `z = cubeIdx % zCount`, `y = (cubeIdx / zCount) % yCount`, `x = cubeIdx / (zCount * yCount)`. */
  function CubeCell(cubeIdx: int, yCount: int, zCount: int): Vec3i
    requires yCount > 0 && zCount > 0
  {
    Vec3i(cubeIdx / (zCount * yCount), (cubeIdx / zCount) % yCount, cubeIdx % zCount)
  }

  /** The decode maps `[0, xCount*yCount*zCount)` into the cube box, and the
      row-major index of the decoded cell is the cube number again. */
  lemma CubeCellInBox(cubeIdx: int, xCount: int, yCount: int, zCount: int)
    requires xCount > 0 && yCount > 0 && zCount > 0
    requires 0 <= cubeIdx < xCount * yCount * zCount
    ensures var c := CubeCell(cubeIdx, yCount, zCount);
      InBox(c.x, c.y, c.z, xCount, yCount, zCount) && Index(c.x, c.y, c.z, yCount, zCount) == cubeIdx
  {
    var c := CubeCell(cubeIdx, yCount, zCount);
    var u := Unflatten(cubeIdx, yCount, zCount);
    IndexUnflatten(cubeIdx, xCount, yCount, zCount);
    UnflattenIndex(u.x, u.y, u.z, xCount, yCount, zCount);
    CubeCellIsUnflatten(u.x, u.y, u.z, xCount, yCount, zCount);
  }

  /** On a cell of the box, the parallel decode and the plain unflatten agree,
      so the decode inverts the row-major index. */
  lemma CubeCellIsUnflatten(x: int, y: int, z: int, xCount: int, yCount: int, zCount: int)
    requires InBox(x, y, z, xCount, yCount, zCount)
    ensures CubeCell(Index(x, y, z, yCount, zCount), yCount, zCount) == Vec3i(x, y, z)
  {
    var k := Index(x, y, z, yCount, zCount);
    IndexInRange(x, y, z, xCount, yCount, zCount);
    assert k == (x * yCount + y) * zCount + z;
    DivModUnique(k, zCount, x * yCount + y, z);
    DivModUnique(x * yCount + y, yCount, x, y);
    assert zCount * yCount == yCount * zCount;
    DivModUnique(k, yCount * zCount, x, y * zCount + z);
  }

  /** Distinct cube numbers decode to distinct cells. */
  lemma CubeCellInjective(c1: int, c2: int, xCount: int, yCount: int, zCount: int)
    requires xCount > 0 && yCount > 0 && zCount > 0
    requires 0 <= c1 < xCount * yCount * zCount && 0 <= c2 < xCount * yCount * zCount
    requires CubeCell(c1, yCount, zCount) == CubeCell(c2, yCount, zCount)
    ensures c1 == c2
  {
    CubeCellInBox(c1, xCount, yCount, zCount);
    CubeCellInBox(c2, xCount, yCount, zCount);
  }

  /** Corner `(x+cx, y+cy, z+cz)` of a cell has index `base + cx*strideYZ + cy*sizeZ + cz`. */
  lemma IndexShift(x: int, y: int, z: int, cx: int, cy: int, cz: int, sy: int, sz: int)
    ensures Index(x + cx, y + cy, z + cz, sy, sz) == Index(x, y, z, sy, sz) + Index(cx, cy, cz, sy, sz)
  {
    assert (x + cx) * (sy * sz) == x * (sy * sz) + cx * (sy * sz);
    assert (y + cy) * sz == y * sz + cy * sz;
  }
}
