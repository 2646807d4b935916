/** Vectors, colours and the scalar helpers of the engine's maths library, with
    every float modelled as a real. */
module Geometry {

  /** A reference that may be null (None) or point at a value. */
  datatype Option<T> = None | Some(value: T)

  datatype Vec3 = Vec3(x: real, y: real, z: real)
  datatype Vec3i = Vec3i(x: int, y: int, z: int)
  /** `Color` (and `Color32`, whose byte quantisation is not modelled) as four real channels. */
  datatype Color = Color(r: real, g: real, b: real, a: real)

  /** The zero colour a freshly allocated colour array holds. */
  const Clear: Color := Color(0.0, 0.0, 0.0, 0.0)

  function Add(u: Vec3, v: Vec3): Vec3 { Vec3(u.x + v.x, u.y + v.y, u.z + v.z) }

  function Sub(u: Vec3, v: Vec3): Vec3 { Vec3(u.x - v.x, u.y - v.y, u.z - v.z) }

  function Scale(v: Vec3, k: real): Vec3 { Vec3(v.x * k, v.y * k, v.z * k) }

  function ToReal(v: Vec3i): Vec3 { Vec3(v.x as real, v.y as real, v.z as real) }

  function AddI(u: Vec3i, v: Vec3i): Vec3i { Vec3i(u.x + v.x, u.y + v.y, u.z + v.z) }

  /** `Mathf.Abs`. */
  function Abs(r: real): (a: real)
    ensures a >= 0.0 && (a == r || a == -r)
  {
    if r < 0.0 then -r else r
  }

  /** `Mathf.Clamp(v, lo, hi)`: below lo gives lo, above hi gives hi. */
  function Clamp(v: real, lo: real, hi: real): (r: real)
    requires lo <= hi
    ensures lo <= r <= hi
    ensures lo <= v <= hi ==> r == v
    ensures v < lo ==> r == lo
    ensures v > hi ==> r == hi
  {
    if v < lo then lo else if v > hi then hi else v
  }

  function Clamp01(v: real): (r: real)
    ensures 0.0 <= r <= 1.0
  {
    Clamp(v, 0.0, 1.0)
  }

  /** Linear interpolation `a + (b - a) * t`. */
  function Lerp(a: real, b: real, t: real): real { a + (b - a) * t }

  /** For t in [0,1] the interpolant lies between its two ends. */
  lemma LerpBetween(a: real, b: real, t: real)
    requires 0.0 <= t <= 1.0
    ensures a <= b ==> a <= Lerp(a, b, t) <= b
    ensures b <= a ==> b <= Lerp(a, b, t) <= a
  {
    var d := b - a;
    var e := d * t;
    assert Lerp(a, b, t) == a + e;
    if a <= b {
      MulUnit(d, t);
    } else {
      MulUnit(-d, t);
      assert (-d) * t == -e;
    }
  }

  /** A non-negative quantity scaled by a factor in [0,1] stays between 0 and itself. */
  lemma MulUnit(d: real, t: real)
    requires d >= 0.0 && 0.0 <= t <= 1.0
    ensures 0.0 <= d * t <= d
  {
    assert d * (1.0 - t) >= 0.0;
    assert d * (1.0 - t) == d - d * t;
  }

  function LerpV(u: Vec3, v: Vec3, t: real): Vec3
  {
    Vec3(Lerp(u.x, v.x, t), Lerp(u.y, v.y, t), Lerp(u.z, v.z, t))
  }

  function LerpC(c: Color, d: Color, t: real): Color
  {
    Color(Lerp(c.r, d.r, t), Lerp(c.g, d.g, t), Lerp(c.b, d.b, t), Lerp(c.a, d.a, t))
  }

  /** `Mathf.FloorToInt` / `(int)math.floor`. */
  function FloorToInt(r: real): (n: int)
    ensures n as real <= r < n as real + 1.0
  {
    r.Floor
  }

  /** `Mathf.CeilToInt`. */
  function CeilToInt(r: real): (n: int)
    ensures r <= n as real < r + 1.0
  {
    -((-r).Floor)
  }

  /** `Mathf.Min`. */
  function Min(a: real, b: real): (m: real)
    ensures m <= a && m <= b && (m == a || m == b)
  {
    if a <= b then a else b
  }

  function MinV(u: Vec3, v: Vec3): Vec3
  {
    Vec3(if u.x <= v.x then u.x else v.x, if u.y <= v.y then u.y else v.y, if u.z <= v.z then u.z else v.z)
  }

  function MaxV(u: Vec3, v: Vec3): Vec3
  {
    Vec3(if u.x >= v.x then u.x else v.x, if u.y >= v.y then u.y else v.y, if u.z >= v.z then u.z else v.z)
  }

  /** u is component-wise at most v. */
  predicate Below(u: Vec3, v: Vec3) { u.x <= v.x && u.y <= v.y && u.z <= v.z }

  /** lo is the component-wise minimum of the points: below each, and each
      coordinate attained by some point. */
  ghost predicate IsMinCorner(lo: Vec3, ps: seq<Vec3>)
  {
    && (forall i :: 0 <= i < |ps| ==> Below(lo, ps[i]))
    && (exists i :: 0 <= i < |ps| && ps[i].x == lo.x)
    && (exists i :: 0 <= i < |ps| && ps[i].y == lo.y)
    && (exists i :: 0 <= i < |ps| && ps[i].z == lo.z)
  }

  /** hi is the component-wise maximum of the points. */
  ghost predicate IsMaxCorner(hi: Vec3, ps: seq<Vec3>)
  {
    && (forall i :: 0 <= i < |ps| ==> Below(ps[i], hi))
    && (exists i :: 0 <= i < |ps| && ps[i].x == hi.x)
    && (exists i :: 0 <= i < |ps| && ps[i].y == hi.y)
    && (exists i :: 0 <= i < |ps| && ps[i].z == hi.z)
  }

  /** A batch has one maximum corner. */
  lemma MaxCornerUnique(h: Vec3, h': Vec3, ps: seq<Vec3>)
    requires IsMaxCorner(h, ps) && IsMaxCorner(h', ps)
    ensures h == h'
  {
    var i :| 0 <= i < |ps| && ps[i].x == h'.x;
    var j :| 0 <= j < |ps| && ps[j].x == h.x;
    assert Below(ps[i], h) && Below(ps[j], h');
    var k :| 0 <= k < |ps| && ps[k].y == h'.y;
    var l :| 0 <= l < |ps| && ps[l].y == h.y;
    assert Below(ps[k], h) && Below(ps[l], h');
    var m :| 0 <= m < |ps| && ps[m].z == h'.z;
    var n :| 0 <= n < |ps| && ps[n].z == h.z;
    assert Below(ps[m], h) && Below(ps[n], h');
  }

  /** The axis-aligned bounding box of a non-empty batch, accumulated with
      `Vector3.Min`/`Vector3.Max` from the first point on. */
  method Bounds(ps: seq<Vec3>) returns (lo: Vec3, hi: Vec3)
    requires |ps| > 0
    ensures IsMinCorner(lo, ps) && IsMaxCorner(hi, ps)
    ensures Below(lo, hi)
  {
    lo, hi := ps[0], ps[0];
    var k := 0;
    while k < |ps|
      invariant 0 <= k <= |ps|
      invariant forall i :: 0 <= i < k ==> Below(lo, ps[i]) && Below(ps[i], hi)
      invariant Below(lo, ps[0]) && Below(ps[0], hi)
      invariant exists i :: 0 <= i < |ps| && ps[i].x == lo.x
      invariant exists i :: 0 <= i < |ps| && ps[i].y == lo.y
      invariant exists i :: 0 <= i < |ps| && ps[i].z == lo.z
      invariant exists i :: 0 <= i < |ps| && ps[i].x == hi.x
      invariant exists i :: 0 <= i < |ps| && ps[i].y == hi.y
      invariant exists i :: 0 <= i < |ps| && ps[i].z == hi.z
    {
      lo := MinV(lo, ps[k]);
      hi := MaxV(hi, ps[k]);
      k := k + 1;
    }
  }

  /** Voxels along one axis: `CeilToInt(span / resolution) + 1`. */
  function GridDim(span: real, resolution: real): (n: int)
    requires resolution > 0.0
    requires span >= 0.0
    ensures n >= 1
    ensures span <= (n - 1) as real * resolution
  {
    var q := span / resolution;
    assert q >= 0.0;
    var c := CeilToInt(q);
    assert span == q * resolution;
    assert q * resolution <= c as real * resolution;
    c + 1
  }

  /** Voxel coordinate along one axis of a world coordinate: `FloorToInt((p - origin) / resolution)`. */
  function Cell(p: real, origin: real, resolution: real): int
    requires resolution > 0.0
  {
    FloorToInt((p - origin) / resolution)
  }

  /** A point between the minimum and the maximum of its axis falls in a voxel
      of a grid of `GridDim(max - min, resolution)` voxels. */
  lemma {:induction false} CellInGrid(p: real, lo: real, hi: real, resolution: real)
    requires resolution > 0.0
    requires lo <= p <= hi
    ensures 0 <= Cell(p, lo, resolution) < GridDim(hi - lo, resolution)
  {
    var r := (p - lo) / resolution;
    var s := (hi - lo) / resolution;
    assert r * resolution == p - lo && s * resolution == hi - lo;
    assert r >= 0.0;
    assert r <= s;
    assert Cell(p, lo, resolution) as real <= r;
    assert CeilToInt(s) as real >= s;
  }

  /** Every point of a batch has its home voxel inside the grid built from the
      batch's bounding box. */
  lemma HomeInGrid(ps: seq<Vec3>, lo: Vec3, hi: Vec3, resolution: real, i: int)
    requires resolution > 0.0
    requires IsMinCorner(lo, ps) && IsMaxCorner(hi, ps)
    requires 0 <= i < |ps|
    ensures 0 <= Cell(ps[i].x, lo.x, resolution) < GridDim(hi.x - lo.x, resolution)
    ensures 0 <= Cell(ps[i].y, lo.y, resolution) < GridDim(hi.y - lo.y, resolution)
    ensures 0 <= Cell(ps[i].z, lo.z, resolution) < GridDim(hi.z - lo.z, resolution)
  {
    assert Below(lo, ps[i]) && Below(ps[i], hi);
    CellInGrid(ps[i].x, lo.x, hi.x, resolution);
    CellInGrid(ps[i].y, lo.y, hi.y, resolution);
    CellInGrid(ps[i].z, lo.z, hi.z, resolution);
  }
}
