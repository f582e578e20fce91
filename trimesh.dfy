/** Building a static triangle-mesh collider from a geometry's positions:
    the positions are copied into a flat vertex buffer, every position gets
    its own index, and one mass-0 body carrying that mesh is added to the
    physics world. */
module Trimesh {
  import opened Geometry

  /** A collision shape: a triangle mesh over a flat vertex buffer. */
  datatype Shape = TrimeshShape(vertices: seq<real>, indices: seq<nat>)

  /** A rigid body; mass 0 makes it static. */
  datatype Body = Body(mass: real, shapes: seq<Shape>)

  /** The input geometry: whether it is flagged as a buffer geometry, and
      its (non-indexed) vertex positions. */
  datatype MeshGeometry = MeshGeometry(isBufferGeometry: bool, positions: seq<Vec3>)

  /** The physics world, of which only the list of added bodies is modelled. */
  class World {
    var bodies: seq<Body>

    constructor ()
      ensures bodies == []
    {
      bodies := [];
    }

    method AddBody(body: Body)
      modifies this
      ensures bodies == old(bodies) + [body]
    {
      bodies := bodies + [body];
    }
  }

  /** The index list `[0, 1, ..., n - 1]`. */
  function Identity(n: nat): (r: seq<nat>)
    ensures |r| == n
    ensures forall i :: 0 <= i < n ==> r[i] == i
  {
    if n == 0 then [] else Identity(n - 1) + [n - 1]
  }

  /** The extraction loop: vertex `i` goes to slots `3i` to `3i+2` and index
      `i` is `i`, so every index names one of the copied vertices. */
  method ExtractBuffers(positions: seq<Vec3>) returns (vertices: seq<real>, indices: seq<nat>)
    ensures vertices == Flatten(positions)
    ensures indices == Identity(|positions|)
    ensures forall k :: 0 <= k < |indices| ==> indices[k] < |vertices| / 3
  {
    vertices, indices := [], [];
    for i := 0 to |positions|
      invariant vertices == Flatten(positions[..i])
      invariant indices == Identity(i)
    {
      var p := positions[i];
      assert positions[..i + 1] == positions[..i] + [p];
      FlattenSnoc(positions[..i], p);
      vertices := vertices + [p.x, p.y, p.z];
      indices := indices + [i];
    }
    assert positions[..|positions|] == positions;
  }

  /** The body added for `positions`: static, with one trimesh shape. */
  function StaticTrimeshBody(positions: seq<Vec3>): Body {
    Body(0.0, [TrimeshShape(Flatten(positions), Identity(|positions|))])
  }

  /** Extracts the buffers first, then rejects a geometry not flagged as a
      buffer geometry without touching the world; otherwise adds exactly
      one static trimesh body. */
  method CreateTrimeshFromGeometry(geometry: MeshGeometry, world: World)
    modifies world
    ensures !geometry.isBufferGeometry ==> world.bodies == old(world.bodies)
    ensures geometry.isBufferGeometry ==>
      world.bodies == old(world.bodies) + [StaticTrimeshBody(geometry.positions)]
  {
    var vertices, indices := ExtractBuffers(geometry.positions);
    if !geometry.isBufferGeometry {
      return;
    }
    var shape := TrimeshShape(vertices, indices);
    var body := Body(0.0, [shape]);
    world.AddBody(body);
  }
}
