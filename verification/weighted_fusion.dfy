/** The weighted running-average rule of the persistent grid: a voxel holding
    `prev` with weight `w` that accepts a candidate `v` of weight 1 takes
    `(prev * w + v) / (w + 1)` and weight `w + 1`; its colour moves towards the
    point's colour by `1 / (w + 1)`. Starting from weight 0, a voxel holds the
    mean of the candidates it has accepted. */
module WeightedFusion {
  import opened Geometry

  /** `(tsdf * w_old + tsdfValue * w_new) / (w_old + w_new)` with `w_new == 1`. */
  function Fuse(prev: real, w: real, v: real): real
    requires w >= 0.0
  {
    (prev * w + v * 1.0) / (w + 1.0)
  }

  /** The fused value is the interpolation from the old value towards the
      candidate by `1 / (w + 1)`. */
  lemma FuseIsLerp(prev: real, w: real, v: real)
    requires w >= 0.0
    ensures Fuse(prev, w, v) == Lerp(prev, v, 1.0 / (w + 1.0))
  {
    var d := w + 1.0;
    var f := Fuse(prev, w, v);
    assert f * d == prev * w + v;
    var l := Lerp(prev, v, 1.0 / d);
    assert l == prev + (v - prev) / d;
    assert (v - prev) / d * d == v - prev;
    assert l * d == prev * d + (v - prev) / d * d;
    assert l * d == prev * w + v;
  }

  /** The fused value lies between the old value and the candidate. */
  lemma FuseBetween(prev: real, w: real, v: real)
    requires w >= 0.0
    ensures prev <= v ==> prev <= Fuse(prev, w, v) <= v
    ensures v <= prev ==> v <= Fuse(prev, w, v) <= prev
  {
    FuseIsLerp(prev, w, v);
    assert 0.0 < 1.0 / (w + 1.0) <= 1.0;
    LerpBetween(prev, v, 1.0 / (w + 1.0));
  }

  /** A convex combination of two values in `[-T, T]` stays in `[-T, T]`. */
  lemma FuseInRange(prev: real, w: real, v: real, truncation: real)
    requires w >= 0.0
    requires -truncation <= prev <= truncation && -truncation <= v <= truncation
    ensures -truncation <= Fuse(prev, w, v) <= truncation
  {
    FuseBetween(prev, w, v);
  }

  /** The fused value is the candidate itself exactly when the voxel had no
      weight yet, or already held that value. */
  lemma FuseExact(prev: real, w: real, v: real)
    requires w >= 0.0
    ensures Fuse(prev, w, v) == v <==> w == 0.0 || prev == v
  {
    var d := w + 1.0;
    var f := Fuse(prev, w, v);
    assert f * d == prev * w + v;
    assert v * d == v * w + v;
    if f == v {
      assert prev * w == v * w;
      assert (prev - v) * w == 0.0;
    }
  }

  /** The colour of a voxel after an accepted update: `Color.Lerp(prev, c, 1 / (w + 1))`. */
  function Blend(prev: Color, c: Color, w: real): Color
    requires w >= 0.0
  {
    LerpC(prev, c, 1.0 / (w + 1.0))
  }

  /** Each colour channel follows the same running average as the value. */
  lemma BlendIsFuse(prev: Color, c: Color, w: real)
    requires w >= 0.0
    ensures Blend(prev, c, w) == Color(Fuse(prev.r, w, c.r), Fuse(prev.g, w, c.g), Fuse(prev.b, w, c.b), Fuse(prev.a, w, c.a))
  {
    FuseIsLerp(prev.r, w, c.r);
    FuseIsLerp(prev.g, w, c.g);
    FuseIsLerp(prev.b, w, c.b);
    FuseIsLerp(prev.a, w, c.a);
  }

  function Sum(vs: seq<real>): real
  {
    if |vs| == 0 then 0.0 else Sum(vs[..|vs| - 1]) + vs[|vs| - 1]
  }

  function Mean(vs: seq<real>): real
    requires |vs| > 0
  {
    Sum(vs) / (|vs| as real)
  }

  /** Fusing one more candidate into the mean of n candidates with weight n
      gives the mean of the n + 1 candidates. */
  lemma FuseMean(vs: seq<real>, v: real)
    requires |vs| > 0
    ensures Fuse(Mean(vs), |vs| as real, v) == Mean(vs + [v])
  {
    var n := |vs| as real;
    assert (vs + [v])[..|vs|] == vs;
    assert Sum(vs + [v]) == Sum(vs) + v;
    assert Mean(vs) * n == Sum(vs);
  }

  /** Value and weight of a voxel that started at `initial` with weight 0 and
      then accepted the candidates `vs` in order. */
  function Accumulate(initial: real, vs: seq<real>): (r: (real, real))
    ensures r.1 == |vs| as real
  {
    if |vs| == 0 then (initial, 0.0)
    else
      var prev := Accumulate(initial, vs[..|vs| - 1]);
      (Fuse(prev.0, prev.1, vs[|vs| - 1]), prev.1 + 1.0)
  }

  /** Once any candidate has been accepted, `Accumulate` holds their mean and
      its weight counts them. `OptimizedGrid.WeightedIsAccumulate` shows that a
      grid voxel starting at weight 0 holds `Accumulate` of the candidates it
      accepted, so its value is their running average. */
  lemma {:induction false} AccumulateIsMean(initial: real, vs: seq<real>)
    requires |vs| > 0
    ensures Accumulate(initial, vs).0 == Mean(vs)
  {
    var k := |vs| - 1;
    var prefix := vs[..k];
    assert prefix + [vs[k]] == vs;
    if k == 0 {
      FuseExact(initial, 0.0, vs[0]);
      assert Sum(vs) == Sum([]) + vs[0];
    } else {
      AccumulateIsMean(initial, prefix);
      FuseMean(prefix, vs[k]);
    }
  }
}
