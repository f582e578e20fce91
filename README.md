# Portfolio demos: maze movement and mesh buffer building, in Dafny

This project models the four pieces of sequential logic in the portfolio
demos that can be stated without the rendering and physics libraries:

- **The maze game** (`maze.dfy`, module `Maze`). The player is an
  axis-aligned box at integer pixel coordinates. On load it is placed at
  (600, 80). A `w`/`a`/`s`/`d` key press proposes a 20-pixel step along one
  axis, clamped to the viewport (`w`, `a` at 0, `s`, `d` at the far edge minus
  the player's size); any other key proposes the current position. The
  proposal is committed only when it overlaps no wall strictly (touching
  edges are allowed). After a committed move the win test compares the
  cheese with the player's box *as it was before the move*, with non-strict
  comparisons. `Game` is a class whose `x`, `y` fields `Move` updates;
  `CheckCollision` is the scan over the walls with its early return.
- **The road ribbon** (`track.dfy`, module `Track`). For each of 200 curve
  samples, taken at parameter `i / 200`, the loop pushes the point half a
  road width (3) to the left and to the right of the curve point along the
  binormal. For every sample but the last it pushes the two triangles
  `(2i, 2i+1, 2i+2)` and `(2i+1, 2i+3, 2i+2)`. The result is 400 vertices and
  1194 indices, all below 400, and the strip is open even though the curve
  is closed.
- **The polyhedron mesh** (`objects.dfy`, module `Objects`). The nested loop
  pushes the x, y, z of `vertices[i]` for every corner `i` of every face,
  face after face. The buffer has `3 * (number of face corners)` entries;
  the default cube has 84. A corner that names no vertex is an error, as in
  the source it reads a field of `undefined`.
- **The trimesh collider** (`trimesh.dfy`, module `Trimesh`). The loop copies
  the `count` positions into a flat vertex buffer and builds the index list
  `[0, ..., count - 1]`. Only after that the geometry flag is tested: a
  geometry not flagged as a buffer geometry leaves the world unchanged, and
  any other adds exactly one static (mass 0) body with one trimesh shape.

The module `Geometry` (`geometry.dfy`) holds what the three buffer builders
share: points (`Vec3`, exact reals) and `Flatten`, the `[x0, y0, z0, x1, ...]`
buffer of a sequence of points.

The library's inputs are parameters. The curve's point at a parameter is a
function `pointAt`, and its binormals are a sequence. The window size is
passed to each `Move`. The geometry's positions are given already
non-indexed. The inputs of the three buffer builders are sequence values,
so the loops cannot modify `vertices` or the face lists: that property of
the polyhedron loop holds by construction.

## Model

| member | source | states |
|---|---|---|
| `Maze.Game.constructor` | public/MazeGameFolder/script.js:7-14 | the player starts at x = 600, y = 80 |
| `Maze.Propose` | public/MazeGameFolder/script.js:32-52 | each key moves along its own axis only; `w`/`a` step back a full 20 when the coordinate is at least 20 and otherwise propose exactly 0, so never a negative coordinate; `s`/`d` step on a full 20 when the box still fits in the viewport and otherwise propose exactly the viewport size minus the player's size; any other key proposes the current position |
| `Maze.ProposeStaysInViewport` | public/MazeGameFolder/script.js:39-52 | a player inside the viewport is proposed a position inside it, at most one step away, changing one coordinate at most |
| `Maze.CheckCollision` | public/MazeGameFolder/script.js:67-83 | the in-order scan with early return answers true exactly when some wall satisfies `x < right`, `x + w > left`, `y < bottom`, `y + h > top` |
| `Maze.OverlapsIffSharedPixel` | public/MazeGameFolder/script.js:70-75 | for a player box and a wall of positive size, the four strict comparisons hold exactly when the two boxes share a pixel |
| `Maze.CollidesConcat` | public/MazeGameFolder/script.js:67-83 | the walls collide with the box exactly when some wall in the first part of the list or in the rest does, so the answer does not depend on where in the list the hit wall stands |
| `Maze.TouchingIsNoCollision` | public/MazeGameFolder/script.js:70-75 | a box that only shares an edge with a wall does not collide with it |
| `Maze.TouchingCheeseWins` | public/MazeGameFolder/script.js:87-93 | a player box whose top, bottom, left or right edge lies on the opposite edge of the cheese, overlapping it (edges included) along the other axis, wins |
| `Maze.WinsIffSharedPoint` | public/MazeGameFolder/script.js:87-93 | the four non-strict comparisons hold exactly when the player box and the cheese, edges included, share a point |
| `Maze.Game.Move` | public/MazeGameFolder/script.js:25-63 | without a cheese element nothing happens; a colliding proposal leaves x and y unchanged and shows no win; otherwise the position becomes exactly the proposal and the win message is shown exactly when the box from before the move touches the cheese; a player clear of the walls stays clear |
| `Geometry.FlattenSnoc` | src/trimesh.js:17 | pushing one point appends exactly its x, y, z |
| `Geometry.FlattenAt` | src/trimesh.js:16-18 | in a flattened buffer, point k is at slots 3k, 3k+1, 3k+2 in x, y, z order |
| `Track.SamplesIncrease` | src/track.js:76-77 | the sample parameters `i / 200` lie in [0, 1) and increase with i |
| `Track.EdgesStraddleCurve` | src/track.js:81-82 | the left and right vertices are symmetric about the curve point and a road width (6) apart along the binormal |
| `Track.RibbonVertices` | src/track.js:84-85 | n samples give 2n vertices |
| `Track.RibbonVertexAt` | src/track.js:76-85 | vertex 2i is the left and vertex 2i+1 the right edge point of sample i |
| `Track.StripIndices` | src/track.js:87-91 | n quads give 6n indices |
| `Track.StripIndexAt` | src/track.js:87-90 | index entry k is corner k mod 6 of quad k div 6, so quad i is the triangles (2i, 2i+1, 2i+2) and (2i+1, 2i+3, 2i+2) |
| `Track.StripIndicesBounded` | src/track.js:87-90 | every index of n quads is below 2n + 2, and 2n + 1 occurs; for the 199 road quads: all below 400, with 399 the largest |
| `Track.StripTriangle` | src/track.js:88-90 | each triangle has three distinct corners, all on two consecutive samples |
| `Track.RoadStripIsOpen` | src/track.js:64-91 | although the curve is closed, no road triangle joins a vertex of sample 199 with one of sample 0 |
| `Track.BuildRoad` | src/track.js:73-92 | the loop's position buffer is the flattened left/right vertices of all 200 samples (1200 numbers) and its index list is that of 199 quads (1194 entries) |
| `Objects.FaceVertices` | src/objects.js:129-131 | the corners of a face, in the face's order: entry c is `vertices[face[c]]` |
| `Objects.CornerVerticesLength` | src/objects.js:128-133 | there is one corner vertex per face corner, so the buffer has 3 times the total number of corners |
| `Objects.UniformCornerCount` | src/objects.js:104-112 | faces of m corners each have m times the number of faces corners in all |
| `Objects.CornerAt` | src/objects.js:128-132 | corner c of face f is corner vertex number (corners of faces before f) + c, and it is `vertices[faces[f][c]]` |
| `Objects.CornerSlots` | src/objects.js:128-132 | that corner's x, y, z fill buffer slots 3k, 3k+1, 3k+2 for k = (corners before face f) + c |
| `Objects.DefaultBuffer` | src/objects.js:94-112 | the default faces name only default vertices, and the default buffer has 84 entries |
| `Objects.FlattenFaces` | src/objects.js:126-133 | the nested loop fails exactly when some corner names no vertex, and otherwise yields the flattened face-major corner vertices |
| `Trimesh.Identity` | src/trimesh.js:16-19 | the index list of n positions has n entries and entry i is i |
| `Trimesh.ExtractBuffers` | src/trimesh.js:12-19 | the vertex buffer is the flattened positions, the indices are 0 to count - 1, and each index is below the number of vertices |
| `Trimesh.World.AddBody` | src/trimesh.js:29 | the world's body list grows by exactly the added body |
| `Trimesh.CreateTrimeshFromGeometry` | src/trimesh.js:3-30 | a geometry not flagged as a buffer geometry leaves the world's bodies unchanged; otherwise exactly one body is added, of mass 0 with one trimesh shape over the extracted buffers |

## Left out

- Floating point: positions, curve points and binormals are exact reals; the 32-bit float rounding of the renderer's buffers is not modelled. Maze coordinates are integers, while the browser reports fractional pixels.
- The maze's screen geometry: the model assumes that the bounding box's `left`/`top` and the player's `style.left`/`style.top` are in the same coordinates (an absolutely positioned player, no scrolling).
- The maze's missing-player case: the page-load code writes the player's style before any key is handled, so a missing player element throws there; only the missing-cheese case of the guard is modelled (`cheese` is `None`).
- Logging (`console.log`, `console.error`) and the `alert` of the win message: `Move` returns whether the message is shown.
- `Maze.OverlapsIffSharedPixel`: stated for boxes of positive size only; a zero-width wall that the player straddles still satisfies the four comparisons without sharing a pixel, and that case is left to `Overlaps` itself.
- `Maze.CheckCollision`: which wall was hit (the element the source logs) is not returned.
- Catmull-Rom sampling (`getPointAt`), Frenet frames, `addScaledVector`, `computeVertexNormals`, the unused tube geometry and the road's mesh and material: library calls. The curve point and binormals are inputs, and the buffers are the method's results.
- The polyhedron's physics body (`ConvexPolyhedron`, `Body`, `addBody`), its mesh and material, and the other constructors in `src/objects.js` (`createCube`, `createSphere`, `createSphere2`): construction with literal parameters passed to the libraries.
- The trimesh geometry's `computeBounding*` and `computeVertexNormals` calls, `toNonIndexed` (the input's positions are taken as already non-indexed), and the null-geometry case, which throws at the first library call before the guard is reached.
- Everything else in the repository (`src/main.js`, the canvas shooter, the car, satellite, streetlight and audio files): scene and UI wiring, physics stepping, randomness and timers.
