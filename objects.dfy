/** The visual mesh of the convex polyhedron: its faces, given as lists of
    vertex numbers, are unrolled into one flat position buffer with three
    components per face corner, face after face. */
module Objects {
  import opened Geometry

  /** Every vertex number of `face` names one of `count` vertices. */
  predicate ValidFace(count: nat, face: seq<int>) {
    forall c :: 0 <= c < |face| ==> 0 <= face[c] < count
  }

  predicate ValidFaces(count: nat, faces: seq<seq<int>>) {
    forall f :: 0 <= f < |faces| ==> ValidFace(count, faces[f])
  }

  /** The corners of one face, in the face's own order. */
  function FaceVertices(vertices: seq<Vec3>, face: seq<int>): (vs: seq<Vec3>)
    requires ValidFace(|vertices|, face)
    ensures |vs| == |face|
    ensures forall c :: 0 <= c < |face| ==> vs[c] == vertices[face[c]]
  {
    if face == [] then []
    else FaceVertices(vertices, face[..|face| - 1]) + [vertices[face[|face| - 1]]]
  }

  /** The corners of all faces, face-major. */
  function CornerVertices(vertices: seq<Vec3>, faces: seq<seq<int>>): seq<Vec3>
    requires ValidFaces(|vertices|, faces)
  {
    if faces == [] then []
    else CornerVertices(vertices, faces[..|faces| - 1]) + FaceVertices(vertices, faces[|faces| - 1])
  }

  /** Total number of face corners. */
  function CornerCount(faces: seq<seq<int>>): nat {
    if faces == [] then 0 else CornerCount(faces[..|faces| - 1]) + |faces[|faces| - 1]|
  }

  /** There is one corner vertex per face corner. */
  lemma {:induction false} CornerVerticesLength(vertices: seq<Vec3>, faces: seq<seq<int>>)
    requires ValidFaces(|vertices|, faces)
    ensures |CornerVertices(vertices, faces)| == CornerCount(faces)
  {
    if faces != [] {
      CornerVerticesLength(vertices, faces[..|faces| - 1]);
    }
  }

  /** Faces of `m` corners each have `m` corners per face in all. */
  lemma {:induction false} UniformCornerCount(faces: seq<seq<int>>, m: nat)
    requires forall f :: 0 <= f < |faces| ==> |faces[f]| == m
    ensures CornerCount(faces) == m * |faces|
  {
    if faces != [] {
      UniformCornerCount(faces[..|faces| - 1], m);
    }
  }

  /** Corner `c` of face `f` comes after all corners of the faces before `f`:
      it is corner vertex number `CornerCount(faces[..f]) + c`, and that
      vertex is `vertices[faces[f][c]]`. */
  lemma {:induction false} CornerAt(vertices: seq<Vec3>, faces: seq<seq<int>>, f: nat, c: nat)
    requires ValidFaces(|vertices|, faces)
    requires f < |faces| && c < |faces[f]|
    ensures CornerCount(faces[..f]) + c < |CornerVertices(vertices, faces)|
    ensures CornerVertices(vertices, faces)[CornerCount(faces[..f]) + c] == vertices[faces[f][c]]
  {
    var init := faces[..|faces| - 1];
    CornerVerticesLength(vertices, faces);
    CornerVerticesLength(vertices, init);
    if f < |faces| - 1 {
      assert init[..f] == faces[..f];
      CornerAt(vertices, init, f, c);
    } else {
      assert faces[..f] == init;
    }
  }

  /** Corner `c` of face `f` fills slots `3k`, `3k+1`, `3k+2` of the flat
      buffer, `k = CornerCount(faces[..f]) + c`, with the x, y, z of its vertex. */
  lemma CornerSlots(vertices: seq<Vec3>, faces: seq<seq<int>>, f: nat, c: nat)
    requires ValidFaces(|vertices|, faces)
    requires f < |faces| && c < |faces[f]|
    ensures var k, p, v := CornerCount(faces[..f]) + c, Flatten(CornerVertices(vertices, faces)), vertices[faces[f][c]];
      3 * k + 2 < |p| && p[3 * k] == v.x && p[3 * k + 1] == v.y && p[3 * k + 2] == v.z
  {
    CornerAt(vertices, faces, f, c);
    FlattenAt(CornerVertices(vertices, faces), CornerCount(faces[..f]) + c);
  }

  /** The default vertices: the corners of the cube from (-1, -1, -1) to (1, 1, 1). */
  function DefaultVertices(): seq<Vec3> {
    [Vec3(-1.0, -1.0, -1.0), Vec3(1.0, -1.0, -1.0), Vec3(1.0, 1.0, -1.0), Vec3(-1.0, 1.0, -1.0),
     Vec3(-1.0, -1.0, 1.0), Vec3(1.0, -1.0, 1.0), Vec3(1.0, 1.0, 1.0), Vec3(-1.0, 1.0, 1.0)]
  }

  /** The default faces: seven of four corners each. */
  function DefaultFaces(): seq<seq<int>> {
    [[0, 1, 2, 3], [4, 5, 6, 7], [4, 7, 6, 5], [0, 4, 5, 1], [1, 5, 6, 2], [2, 6, 7, 3], [3, 7, 4, 0]]
  }

  /** The default faces name only default vertices, and their buffer holds
      7 faces times 4 corners times 3 components. */
  lemma DefaultBuffer()
    ensures ValidFaces(|DefaultVertices()|, DefaultFaces())
    ensures |Flatten(CornerVertices(DefaultVertices(), DefaultFaces()))| == 84
  {
    var fs := DefaultFaces();
    assert ValidFaces(|DefaultVertices()|, fs);
    CornerVerticesLength(DefaultVertices(), fs);
    UniformCornerCount(fs, 4);
  }

  /** Pushing corner `c` of a face extends the buffer by that corner's vertex. */
  lemma CornerStep(vertices: seq<Vec3>, done: seq<Vec3>, face: seq<int>, c: nat)
    requires c < |face| && ValidFace(|vertices|, face[..c + 1])
    ensures ValidFace(|vertices|, face[..c])
    ensures var v := vertices[face[c]];
      Flatten(done + FaceVertices(vertices, face[..c + 1]))
      == Flatten(done + FaceVertices(vertices, face[..c])) + [v.x, v.y, v.z]
  {
    assert face[..c + 1][..c] == face[..c];
    var fv := FaceVertices(vertices, face[..c]);
    var v := vertices[face[c]];
    assert FaceVertices(vertices, face[..c + 1]) == fv + [v];
    FlattenSnoc(done + fv, v);
    assert done + fv + [v] == done + FaceVertices(vertices, face[..c + 1]);
  }

  /** Finishing face `f` extends the corners of the faces before it by its own. */
  lemma FaceStep(vertices: seq<Vec3>, faces: seq<seq<int>>, f: nat)
    requires f < |faces| && ValidFaces(|vertices|, faces[..f]) && ValidFace(|vertices|, faces[f])
    ensures ValidFaces(|vertices|, faces[..f + 1])
    ensures CornerVertices(vertices, faces[..f + 1])
            == CornerVertices(vertices, faces[..f]) + FaceVertices(vertices, faces[f])
  {
    var pre := faces[..f + 1];
    assert pre[..f] == faces[..f];
    assert pre[f] == faces[f];
    forall g | 0 <= g < f + 1
      ensures ValidFace(|vertices|, pre[g])
    {
      if g < f {
        assert pre[g] == faces[..f][g];
      }
    }
  }

  /** The flattening loop: for each face, for each of its corners, push the
      x, y, z of the vertex it names. A corner naming no vertex stops the
      loop with an error, as reading a component of `undefined` throws. */
  method FlattenFaces(vertices: seq<Vec3>, faces: seq<seq<int>>) returns (r: Option<seq<real>>)
    ensures r.None? <==> !ValidFaces(|vertices|, faces)
    ensures r.Some? ==> r.value == Flatten(CornerVertices(vertices, faces))
  {
    var positions: seq<real> := [];
    for f := 0 to |faces|
      invariant ValidFaces(|vertices|, faces[..f])
      invariant positions == Flatten(CornerVertices(vertices, faces[..f]))
    {
      var face := faces[f];
      ghost var done := CornerVertices(vertices, faces[..f]);
      assert done + FaceVertices(vertices, face[..0]) == done;
      for c := 0 to |face|
        invariant ValidFace(|vertices|, face[..c])
        invariant positions == Flatten(done + FaceVertices(vertices, face[..c]))
      {
        var i := face[c];
        if !(0 <= i < |vertices|) {
          assert !ValidFace(|vertices|, faces[f]);
          return None;
        }
        var v := vertices[i];
        assert ValidFace(|vertices|, face[..c + 1]);
        CornerStep(vertices, done, face, c);
        positions := positions + [v.x, v.y, v.z];
      }
      assert face[..|face|] == face;
      FaceStep(vertices, faces, f);
    }
    assert faces[..|faces|] == faces;
    return Some(positions);
  }
}
