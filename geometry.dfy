/** Points in space and the flat `[x0, y0, z0, x1, y1, z1, ...]` buffers
    that the road, the polyhedron mesh and the trimesh collider are built from.
    Coordinates are exact reals: the 32-bit float rounding of the renderer's
    buffers is not modelled. */
module Geometry {

  datatype Option<T> = None | Some(value: T)

  datatype Vec3 = Vec3(x: real, y: real, z: real)

  /** `p + s * b`, the effect of copying `p` and calling `addScaledVector(b, s)`. */
  function AddScaled(p: Vec3, b: Vec3, s: real): Vec3 {
    Vec3(p.x + s * b.x, p.y + s * b.y, p.z + s * b.z)
  }

  /** The components of `vs`, three per point, in point order: what pushing
      `v.x, v.y, v.z` for every `v` of `vs` into an empty array gives. */
  function Flatten(vs: seq<Vec3>): (r: seq<real>)
    ensures |r| == 3 * |vs|
  {
    if vs == [] then []
    else
      var v := vs[|vs| - 1];
      Flatten(vs[..|vs| - 1]) + [v.x, v.y, v.z]
  }

  /** Pushing one more point appends exactly its three components. */
  lemma FlattenSnoc(vs: seq<Vec3>, v: Vec3)
    ensures Flatten(vs + [v]) == Flatten(vs) + [v.x, v.y, v.z]
  {
    assert (vs + [v])[..|vs|] == vs;
  }

  /** Point `k` sits at slots `3k`, `3k+1`, `3k+2`, in x, y, z order. */
  lemma {:induction false} FlattenAt(vs: seq<Vec3>, k: nat)
    requires k < |vs|
    ensures Flatten(vs)[3 * k] == vs[k].x
    ensures Flatten(vs)[3 * k + 1] == vs[k].y
    ensures Flatten(vs)[3 * k + 2] == vs[k].z
  {
    if k < |vs| - 1 {
      FlattenAt(vs[..|vs| - 1], k);
    }
  }
}
