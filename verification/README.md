# A WebGL demo scene: mesh builders, scene list, camera and draw dispatch

The program draws a small static scene with WebGL. The scene is a ground
plane, four boxes and a UV sphere. An orthographic camera animates over it.
Everything runs from `main.js`.

- `init` builds the objects in a fixed order.
- Each builder (`createPlane`, `createBox`, `initSphere`) fills flat arrays
  of positions, normals, colours and (for boxes and the sphere) indices.
- `createBuffer` uploads each array to the device, and the builder pushes
  one object that records:
  - its transform;
  - its buffer handles;
  - its `vertexCount`.
- Every frame, `render` does the following:
  - advances the camera parameter by 0.005;
  - flips between a linear sweep and a half orbit each time the parameter
    passes 1;
  - places the eye;
  - for each object, issues `drawElements` when it has an index buffer and
    `drawArrays` otherwise.

The Dafny modules follow that structure:

| module | models |
|---|---|
| `Geometry` | the flat triple layout every attribute array uses (`Flatten` and its inverse `Unflatten`), and the `concat` broadcast loops (`Repeat`, `Expand`); `Trig` carries `Math.sin`, `Math.cos` and `Math.PI` as parameters |
| `Device` | `createBuffer` and the `Uint16Array` conversion of index lists |
| `Plane` | the arrays of `createPlane` |
| `Box` | the arrays of `createBox` |
| `Sphere` | the three loops of `initSphere`: vertex grid, index grid, colours |
| `Camera` | the camera tick and eye placement at the top of `render` |
| `Scene` | the builders as world transformers, `init`'s object list, the draw choice, and a safety theorem: every draw `init`'s scene issues stays within its buffers |

The random stream `Math.random` is a parameter `rng : nat -> real`, where
draw `k` is the `k`-th call. So the model can say which draws colour which
object.

Two facts about `main.js` shape the model:

- The sphere's attribute buffers do not agree on vertex count. The colour
  loop (`main.js:238-250`) pushes one colour triple per emitted index, not
  per vertex: 216 triples, against the 49 vertices of the buffer shared by
  positions and normals. `Sphere.SphereColors` states the code's behaviour,
  and `Scene.SphereDrawable` shows the mismatch is harmless: each attribute
  holds at least the 49 vertices the indices address.
- The camera parameter is a sum of steps of 0.005, and it wraps only when
  `animation > 1` (`main.js:418-420`). With exact reals the sum is exactly
  `1` after 200 steps, which does not wrap, so `Camera.Valid` allows the
  closed range `[0, 1]`.

## Model

| member | source | states |
|---|---|---|
| Geometry.FlattenAt | main.js:215-217 | reading vertex `k` back out of a flat array gives the triple pushed for it |
| Geometry.FlattenUnique | main.js:465 | a flat array with three entries per vector that reads back every vector in place is that sequence's flattening: the layout determines the array |
| Geometry.UnflattenFlatten | main.js:465 | grouping a flattened array back into triples returns the original vectors |
| Geometry.FlattenUnflatten | main.js:465 | flattening the triples of a flat array whose length is a multiple of 3 returns the array |
| Geometry.FlattenSnoc | main.js:215-217 | pushing one vector's three coordinates extends the flat array by exactly that vertex |
| Geometry.ExpandLength | main.js:327-332 | repeating each per-group value `m` times gives `m` entries per group |
| Geometry.ExpandAt | main.js:327-332 | entry `k` of the per-vertex table is per-group value `k / m` |
| Geometry.RepeatAt | main.js:179-183 | repeating one vector `m` times gives `m` vertices, each that vector |
| Geometry.PerGroupAt | main.js:354-358 | vertex `k` of the flattened per-vertex table carries group `k / m`'s value |
| Device.ToUint16 | main.js:262 | the element conversion lands in `0 .. 65535`, is the identity on that range and changes a value only by a multiple of 65536 |
| Device.ToUint16Array | main.js:262 | one entry per index, each in `0 .. 65535` and congruent to its source modulo 65536, and an index already in range copied unchanged |
| Device.Uint16Exact | main.js:368 | converting an index list to 16 bits leaves it unchanged if and only if every index is in `0 .. 65535` |
| Device.Lookup | main.js:375-387 | a handle names a buffer exactly when it was returned by an earlier allocation |
| Device.CreateBuffer | main.js:375-387 | the returned handle is fresh, it stores `data` bound to the element-array target exactly when `isIndex` holds, and every earlier buffer is unchanged |
| Plane.PlaneDrawCount | main.js:194 | `positions.length / 3` divides exactly: three numbers per drawn vertex |
| Plane.PlaneColors | main.js:175-183 | the colour array is as long as the position array and all six triples are the one sampled colour |
| Plane.PlaneLayout | main.js:171-173 | six vertices at height 0 on the corners of the square of half-extent 5; every normal is `(0, 1, 0)` |
| Box.Halve | main.js:309-313 | the loop keeps the array's length, and doubling any entry of the result gives back the entry it came from |
| Box.Positions | main.js:271-313 | 24 vertices, vertex `k` being listed corner `k` scaled by one half |
| Box.Normals | main.js:343-358 | one normal per position vertex, vertex `k` carrying the normal of face `k / 4` |
| Box.Colors | main.js:315-332 | one colour per position vertex, vertex `k` carrying the colour drawn for face `k / 4` |
| Box.Corner | main.js:309-313 | uploaded vertex `k` is the listed corner `k` halved |
| Box.CornerOfFace | main.js:271-307 | listed corner `k` is corner `k % 4` of face `k / 4` |
| Box.FaceCornersOnPlane | main.js:271-307 | each listed face has four corners with coordinates `+-1`, all one unit out along the face's normal |
| Box.CornerOnItsFace | main.js:271-307 | every listed corner has coordinates `+-1` and lies on its face's plane |
| Box.BoxCoordinates | main.js:271-313 | 72 position numbers, each `0.5` or `-0.5` after halving |
| Box.BoxFacePlanes | main.js:271-350 | every uploaded vertex lies half a unit out along the normal of the face it belongs to |
| Box.BoxIndexPattern | main.js:334-341 | 36 indices, and face `f` uses `4f, 4f+1, 4f+2, 4f, 4f+2, 4f+3` |
| Box.BoxIndexBounds | main.js:334-341 | every index is below 24, and every triangle uses vertices of one face only |
| Box.PerFaceTable | main.js:325-332 | a six-entry per-face table repeated four times gives vertex `k` the value of face `k / 4`, in an array as long as the positions |
| Sphere.SphereGrid | main.js:205-219 | `(n + 1)^2` grid vertices |
| Sphere.SphereVertices | main.js:205-219 | `3 (n + 1)^2` numbers |
| Sphere.SphereVertexLoop | main.js:205-219 | the nested loops emit exactly the flattened grid `SphereVertices`: `3 (n + 1)^2` numbers, vertex `j (n + 1) + i` being `(sin ai sin aj, cos aj, cos ai sin aj)` |
| Sphere.GridStep | main.js:215-217 | the three pushes for `(j, i)` extend the emitted prefix by exactly grid vertex `(j, i)` |
| Sphere.RowEnd | main.js:205-210 | the vertex after the end of row `j` is the start of row `j + 1` |
| Sphere.GridSlot | main.js:205-219 | slot `j (n + 1) + i` of the grid holds vertex `(j, i)` |
| Sphere.SphereVertexAt | main.js:205-219 | reading the flat vertex array at `j (n + 1) + i` gives grid vertex `(j, i)` |
| Sphere.GridEnds | main.js:207-212 | the polar angle runs from 0 to `pi` and the azimuth from 0 to `2 pi` |
| Sphere.SeamDuplicated | main.js:210-214 | given periodicity at `2 pi`, the last column of every row repeats the first: the seam is duplicated, not shared |
| Sphere.PoleRows | main.js:205-209 | given the values of sin and cos at 0 and `pi`, row 0 collapses to `(0, 1, 0)` and row `n` to `(0, -1, 0)` |
| Sphere.OnUnitSphere | main.js:215-217 | given `sin^2 + cos^2 = 1`, every vertex has unit length, so it can serve as its own normal |
| Sphere.SphereIndices | main.js:221-234 | `6 n^2` indices |
| Sphere.SphereCell | main.js:225-232 | cell `(j, i)` occupies entries `6 (j n + i) .. +5`, holding `p1, p2, p1+1, p1+1, p2, p2+1` |
| Sphere.CellIndices | main.js:225-232 | the six pushes of cell `(j, i)`: grid vertices `(j, i)`, `(j+1, i)`, `(j, i+1)`, `(j, i+1)`, `(j+1, i)`, `(j+1, i+1)`, all below `(n + 1)^2` when the cell lies in the grid |
| Sphere.CellEntry | main.js:225-232 | entry `e` of cell `(j, i)` in the index list is entry `e` of that cell's six indices |
| Sphere.SphereIndexLoop | main.js:221-234 | the nested loops emit exactly the closed-form list `SphereIndices`: `6 n^2` indices, cell by cell in row-major order |
| Sphere.CellStep | main.js:227-232 | the six pushes of cell `(j, i)` extend the emitted prefix by exactly that cell |
| Sphere.RowOfCells | main.js:221-223 | the cell after the end of row `j` is the start of row `j + 1` |
| Sphere.SphereCells | main.js:221-234 | every cell's six indices appear at the cell's block |
| Sphere.SphereIndexBounds | main.js:221-234 | every index is below `(n + 1)^2` |
| Sphere.LastCell | main.js:225-232 | the last cell's last entry sits at `6 n^2 - 1`, and grid vertex `(n, n)` is numbered `(n + 1)^2 - 1` |
| Sphere.SphereLastIndex | main.js:232 | the bound is reached: the last index is `(n + 1)^2 - 1` |
| Sphere.SphereIndicesFitUint16 | main.js:262 | the 16-bit conversion keeps the indices exactly when `(n + 1)^2 <= 65536` |
| Sphere.SphereDivFitsUint16 | main.js:200 | with `n = 6` the indices survive the conversion |
| Sphere.SphereColorLoop | main.js:236-250 | the loop emits `3 ceil(count / 3)` triples of `(1, 0.5, 0.1)` |
| Sphere.ColorPass | main.js:244-248 | one pass appends three copies of the colour |
| Sphere.PassCount | main.js:238 | the real-valued bound `indices.length / 3` stops the loop after `ceil(count / 3)` passes |
| Sphere.SphereColors | main.js:236-250 | one constant-colour triple `(1, 0.5, 0.1)` per emitted index: `6 n^2` triples, `18 n^2` numbers in all |
| Sphere.SphereColorsCoverVertices | main.js:236-262 | the colour buffer has a triple for every grid vertex if and only if `n >= 1` |
| Camera.JsRem | main.js:423 | JavaScript's truncated remainder: its sign follows the dividend and its magnitude is below the divisor |
| Camera.JsRemCongruent | main.js:422-423 | the truncated remainder differs from the dividend by a multiple of the divisor and equals the Euclidean one for non-negative dividends |
| Camera.Tick | main.js:418-427 | a wrapping tick resets the parameter to 0, otherwise it grows by 0.005; from a valid state the result is valid, and the mode changes if and only if the tick wraps, then flipping between 0 and 1 |
| Camera.TicksValid | main.js:418-427 | every state reached by any number of frames is valid |
| Camera.InitialTicksValid | main.js:74-75 | from the state `init` sets up (parameter 0, mode 0), every state reached by any number of frames is valid |
| Camera.ModeParity | main.js:420-424 | after `k` frames the mode is the start mode plus the number of wraps, mod 2 |
| Camera.SweepEye | main.js:431 | the sweep eye is at height 8 and depth 6, and its x coordinate gives the parameter back as `(x + 6) / 12` |
| Camera.OrbitEye | main.js:435-438 | for a parameter in `[0, 1]` the orbit eye's height is between 0 and 5 |
| Camera.Eye | main.js:429-440 | from a valid state, mode 0 puts the eye on the segment from `(-6, 8, 6)` to `(6, 8, 6)` at parameter `(x + 6) / 12`, and any other mode puts it at a height between 0 and 5 |
| Camera.SweepMonotone | main.js:431 | the sweep eye moves strictly along +x as the parameter grows |
| Camera.OrbitRadius | main.js:435-438 | given `sin^2 + cos^2 = 1`, the orbit eye is at horizontal distance 10 from the axis |
| Camera.Frame | main.js:418-440 | a frame ticks first and places the eye from the new state; from a valid state the new state is valid, the mode changes exactly on a wrap, and the eye is within the sweep or orbit bounds of the new mode |
| Scene.Step | main.js:156-163 | builder call `k` appends one object, keeps the earlier ones, and consumes `Draws(k)` random numbers |
| Scene.Init | main.js:154-163 | `init` builds six objects, consumes 75 random draws, and no draw of the scene reads past the end of a buffer |
| Scene.CreatePlane | main.js:169-197 | three random draws consumed, one object appended, earlier objects kept |
| Scene.BoxFaceColors | main.js:315-321 | six face colours which, laid out flat, are exactly the next eighteen draws in call order: face `f` takes draws `k + 3f .. k + 3f + 2` |
| Scene.SampledDraws | main.js:317-321 | colours sampled three draws apart read, flattened, as consecutive draws |
| Scene.CreateBox | main.js:269-373 | eighteen random draws consumed, one object appended, earlier objects kept |
| Scene.InitSphere | main.js:252-265 | no random draws consumed, one object appended, earlier objects kept |
| Scene.Dispatch | main.js:493-503 | an indexed draw exactly when the object has an index buffer, with `vertexCount` as the count either way |
| Scene.DrawAll | main.js:455-505 | one draw call per object, in object order, each chosen as `Dispatch` chooses |
| Scene.RenderFrame | main.js:408-505 | from a valid camera state the next one is valid and the eye stays within its mode's bounds; one draw call per object, indexed exactly when the object has an index buffer, with `vertexCount` as the count |
| Scene.DrawInBoundsKept | main.js:375-387 | allocating more buffers never makes a draw read out of bounds |
| Scene.DrawableKept | main.js:185-195 | objects already safe to draw stay safe while more objects and buffers are added |
| Scene.PlaneDrawable | main.js:185-195 | the plane's six-vertex array draw reads only vertices its three buffers hold |
| Scene.BoxDrawable | main.js:360-371 | each of a box's 36 indices survives the 16-bit conversion and addresses one of the 24 vertices every attribute holds |
| Scene.SphereDrawable | main.js:252-265 | each sphere index survives the conversion and addresses one of the 49 vertices every attribute holds |
| Scene.StepDrawable | main.js:156-163 | each builder call keeps every object safe to draw |
| Scene.StageDrawable | main.js:154-163 | every prefix of `init`'s builder calls leaves a scene that is safe to draw |
| Scene.LookupKept | main.js:375-387 | a buffer found before more allocations is found unchanged after them |
| Scene.PlaneObject | main.js:185-195 | the plane object: identity transform, no index buffer, six vertices, colour buffer from the current draws |
| Scene.BoxObject | main.js:360-371 | a box object: given centre and scale, an index buffer, 36 indices, colour buffer from the next eighteen draws |
| Scene.SphereObject | main.js:254-265 | the sphere object: centre `(0, 1, 0)`, one buffer shared by position and normal, an index buffer, 216 indices |
| Scene.StepAppends | main.js:156-163 | every builder call appends one object, keeps earlier objects and buffers, and consumes 3 (plane), 18 (box) or 0 (sphere) random draws |
| Scene.BuildDrawable | main.js:154-163 | for any sequence of builder calls that keep a scene safe to draw, every world they build from nothing is safe to draw |
| Scene.BuildDrawn | main.js:154-163 | for any sequence of builder calls each consuming `Draws(j)` numbers, the first `k` calls consume the closed-form total `DrawsBefore(k)` |
| Scene.BuildLength | main.js:154-163 | for any sequence of builder calls that only append, `k` calls from nothing leave `k` objects |
| Scene.BuildKeeps | main.js:154-163 | for any sequence of builder calls that only append, a later call leaves an earlier object and every allocated buffer untouched |
| Scene.StageShape | main.js:154-163 | after `k` builder calls there are `k` objects and the recorded number of draws is consumed |
| Scene.StageKeeps | main.js:154-163 | later builder calls leave an object and its buffers untouched |
| Scene.InitObject | main.js:154-163 | the objects in order: plane, four boxes at their listed centres and scales, sphere; only the plane is drawn without indices |
| Scene.InitColors | main.js:175-321 | the plane is coloured by draws 0-2, and face `f` of box `b` by draws from `3 + 18 (b - 1) + 3 f` |

## Left out

- Shader sources, shader compilation and linking, and attribute and uniform
  lookup (`main.js:1-152`). These are GLSL text and calls into the WebGL
  context. The model has no graphics context; `Device` stands in for the
  buffer store.
- The matrix pipeline of `render` (`lookAt`, `ortho`, the model matrix, the
  normal matrix). These are `gl-matrix` library calls, which are not part of
  this model.
- Canvas resizing, `requestAnimationFrame` and `gl.clear`. These are browser
  I/O.
- The attribute binding loop of `render` (`main.js:459-467`). It is
  represented only by the three handles each object carries and by
  `Supplied`, the vertex count every bound attribute can provide.
- Floating point. Coordinates, colours and the camera parameter are exact
  reals. `Float32Array` rounding is not modelled.
- Trigonometry. `Math.sin`, `Math.cos` and `Math.PI` are the parameter
  `Trig`. The facts used about them are stated as `requires`.
- Camera.Tick: the parameter is an exact real. In doubles the first wrap
  comes one tick earlier than in the model. The double sum of 0.005 is
  0.9950000000000008 after 199 additions and 1.0000000000000007 after 200,
  so the program wraps on tick 200 and its parameter stays in `[0, 1)`.
  The model reaches exactly 1.0 on tick 200 and wraps on tick 201.
- Sphere.SeamDuplicated: needs sin and cos to agree at 0 and `2 pi`.
  Floating-point `Math.sin(2 * Math.PI)` is not exactly `0`, so the
  duplication is stated for exact trigonometry only.
- Sphere.PoleRows: assumes exact values of sin and cos at 0 and `pi`. In
  doubles, `Math.sin(Math.PI)` is about `1.2e-16`, so the floating-point
  poles are only approximately `(0, +-1, 0)`.
- Sphere.OnUnitSphere: assumes `sin^2 + cos^2 = 1`, so it states unit
  length only up to that identity.
- Camera.OrbitRadius: assumes `sin^2 + cos^2 = 1`, for the same reason.
- Sphere.SphereVertexLoop: requires `n > 0`. With no subdivisions the
  source divides by zero and pushes `NaN` coordinates, which reals cannot
  represent. The index and colour loops have no such requirement and are
  modelled for every `n`.
- Triangle winding with respect to back-face culling is not stated for the
  plane, the boxes or the sphere.
- The values `Math.random` returns are not constrained to `[0, 1)`. The
  model only tracks which draw goes where.
