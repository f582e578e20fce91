/** The flat road ribbon laid along the closed track curve: two vertices per
    curve sample, to the left and right of the curve point along its
    binormal, stitched into an open strip of quads, two triangles each.
    The curve itself (its point at a parameter and its Frenet binormals) is
    library geometry and is taken as input. */
module Track {
  import opened Geometry

  /** Number of curve samples. */
  const Samples: nat := 200

  /** Width of the road. */
  const RoadWidth: real := 6.0

  /** The curve parameter of sample `i`. */
  function SampleParam(i: nat): real {
    i as real / Samples as real
  }

  /** The samples run in increasing order of the parameter, from 0 up to
      but excluding 1. */
  lemma SamplesIncrease(i: nat, j: nat)
    requires i < j < Samples
    ensures 0.0 <= SampleParam(i) < SampleParam(j) < 1.0
  {
  }

  /** The left and right road edge at sample `i`. */
  function LeftEdge(pointAt: real -> Vec3, binormals: seq<Vec3>, i: nat): Vec3
    requires i < |binormals|
  {
    AddScaled(pointAt(SampleParam(i)), binormals[i], -RoadWidth / 2.0)
  }

  function RightEdge(pointAt: real -> Vec3, binormals: seq<Vec3>, i: nat): Vec3
    requires i < |binormals|
  {
    AddScaled(pointAt(SampleParam(i)), binormals[i], RoadWidth / 2.0)
  }

  /** The two edge points lie symmetrically about the curve point, a road
      width apart along the binormal. */
  lemma EdgesStraddleCurve(pointAt: real -> Vec3, binormals: seq<Vec3>, i: nat)
    requires i < |binormals|
    ensures var l, r, c, b := LeftEdge(pointAt, binormals, i), RightEdge(pointAt, binormals, i),
              pointAt(SampleParam(i)), binormals[i];
      l.x + r.x == 2.0 * c.x && l.y + r.y == 2.0 * c.y && l.z + r.z == 2.0 * c.z &&
      r.x - l.x == RoadWidth * b.x && r.y - l.y == RoadWidth * b.y && r.z - l.z == RoadWidth * b.z
  {
  }

  /** The vertices of the first `n` samples, left then right for each. */
  function RibbonVertices(pointAt: real -> Vec3, binormals: seq<Vec3>, n: nat): (vs: seq<Vec3>)
    requires n <= |binormals|
    ensures |vs| == 2 * n
  {
    if n == 0 then []
    else RibbonVertices(pointAt, binormals, n - 1)
         + [LeftEdge(pointAt, binormals, n - 1), RightEdge(pointAt, binormals, n - 1)]
  }

  /** Vertex `2i` is the left edge and vertex `2i+1` the right edge of sample `i`. */
  lemma {:induction false} RibbonVertexAt(pointAt: real -> Vec3, binormals: seq<Vec3>, n: nat, i: nat)
    requires i < n <= |binormals|
    ensures RibbonVertices(pointAt, binormals, n)[2 * i] == LeftEdge(pointAt, binormals, i)
    ensures RibbonVertices(pointAt, binormals, n)[2 * i + 1] == RightEdge(pointAt, binormals, i)
  {
    if i < n - 1 {
      RibbonVertexAt(pointAt, binormals, n - 1, i);
    }
  }

  /** The two triangles of quad `q`, joining samples `q` and `q + 1`. */
  function QuadIndices(q: nat): seq<nat> {
    var base := 2 * q;
    [base, base + 1, base + 2, base + 1, base + 3, base + 2]
  }

  /** The index list of the first `n` quads. */
  function StripIndices(n: nat): (r: seq<nat>)
    ensures |r| == 6 * n
  {
    if n == 0 then [] else StripIndices(n - 1) + QuadIndices(n - 1)
  }

  /** Entry `k` is corner `k % 6` of quad `k / 6`: quad `q` is the triangles
      `(2q, 2q+1, 2q+2)` and `(2q+1, 2q+3, 2q+2)`. */
  lemma {:induction false} StripIndexAt(n: nat, k: nat)
    requires k < 6 * n
    ensures StripIndices(n)[k] == QuadIndices(k / 6)[k % 6]
  {
    if k < 6 * (n - 1) {
      StripIndexAt(n - 1, k);
    }
  }

  /** Every index of `n` quads names one of the `2n + 2` vertices of the
      `n + 1` samples they join, and the last one, `2n + 1`, is the largest. */
  lemma StripIndicesBounded(n: nat)
    ensures forall k :: 0 <= k < |StripIndices(n)| ==> StripIndices(n)[k] < 2 * n + 2
    ensures n > 0 ==> StripIndices(n)[6 * n - 2] == 2 * n + 1
  {
    forall k | 0 <= k < |StripIndices(n)|
      ensures StripIndices(n)[k] < 2 * n + 2
    {
      StripIndexAt(n, k);
    }
    if n > 0 {
      StripIndexAt(n, 6 * n - 2);
    }
  }

  /** Triangle `t` is entries `3t` to `3t+2`: the even triangle of quad `q`
      is `(2q, 2q+1, 2q+2)` and the odd one `(2q+1, 2q+3, 2q+2)`, so each
      has three distinct corners, on samples `q` and `q + 1` only. */
  lemma StripTriangle(n: nat, t: nat)
    requires t < 2 * n
    ensures var r, q := StripIndices(n), t / 2;
      if t % 2 == 0 then
        r[3 * t] == 2 * q && r[3 * t + 1] == 2 * q + 1 && r[3 * t + 2] == 2 * q + 2
      else
        r[3 * t] == 2 * q + 1 && r[3 * t + 1] == 2 * q + 3 && r[3 * t + 2] == 2 * q + 2
  {
    var q := t / 2;
    StripIndexAt(n, 3 * t);
    StripIndexAt(n, 3 * t + 1);
    StripIndexAt(n, 3 * t + 2);
    assert (3 * t) / 6 == q && (3 * t + 1) / 6 == q && (3 * t + 2) / 6 == q;
    assert (3 * t) % 6 == 3 * (t % 2);
    assert (3 * t + 1) % 6 == 3 * (t % 2) + 1;
    assert (3 * t + 2) % 6 == 3 * (t % 2) + 2;
  }

  /** The road strip is open: although the curve is closed, no triangle of
      its `Samples - 1` quads uses a vertex of the last sample together with
      one of the first. */
  lemma RoadStripIsOpen(t: nat, c: nat, d: nat)
    requires t < 2 * (Samples - 1) && c < 3 && d < 3
    ensures var r := StripIndices(Samples - 1);
      !(r[3 * t + c] / 2 == Samples - 1 && r[3 * t + d] / 2 == 0)
  {
    StripTriangle(Samples - 1, t);
  }

  /** Pushing sample `i`'s left and right edge points extends the flat
      buffer of the first `i` samples to that of the first `i + 1`. */
  lemma RibbonStep(pointAt: real -> Vec3, binormals: seq<Vec3>, i: nat)
    requires i < |binormals|
    ensures var l, r := LeftEdge(pointAt, binormals, i), RightEdge(pointAt, binormals, i);
      Flatten(RibbonVertices(pointAt, binormals, i + 1))
      == Flatten(RibbonVertices(pointAt, binormals, i)) + [l.x, l.y, l.z] + [r.x, r.y, r.z]
  {
    var before := RibbonVertices(pointAt, binormals, i);
    var l, r := LeftEdge(pointAt, binormals, i), RightEdge(pointAt, binormals, i);
    FlattenSnoc(before, l);
    FlattenSnoc(before + [l], r);
    assert before + [l] + [r] == RibbonVertices(pointAt, binormals, i + 1);
  }

  /** The sampling loop: for every sample it pushes the left and right edge
      points, and for every sample but the last the two triangles to the
      next sample. */
  method BuildRoad(pointAt: real -> Vec3, binormals: seq<Vec3>)
    returns (positions: seq<real>, indices: seq<nat>)
    requires Samples <= |binormals|
    ensures positions == Flatten(RibbonVertices(pointAt, binormals, Samples))
    ensures indices == StripIndices(Samples - 1)
    ensures |positions| == 3 * 400 && |indices| == 1194
  {
    positions, indices := [], [];
    for i := 0 to Samples
      invariant positions == Flatten(RibbonVertices(pointAt, binormals, i))
      invariant indices == StripIndices(if i < Samples then i else Samples - 1)
    {
      var left := LeftEdge(pointAt, binormals, i);
      var right := RightEdge(pointAt, binormals, i);
      RibbonStep(pointAt, binormals, i);
      positions := positions + [left.x, left.y, left.z];
      positions := positions + [right.x, right.y, right.z];
      if i < Samples - 1 {
        var base := i * 2;
        indices := indices + [base, base + 1, base + 2];
        indices := indices + [base + 1, base + 3, base + 2];
        assert indices == StripIndices(i) + QuadIndices(i);
      }
    }
  }
}
