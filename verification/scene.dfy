/** Scene assembly (`init`) and the draw loop of `render`.

    `init` builds, in this order, the ground plane, four boxes with fixed
    centres and scales, and the sphere; each builder uploads its arrays and
    pushes one object recording its transform, its buffer handles and its
    `vertexCount`. `render` then walks the objects in order and issues an
    indexed draw for an object with an index buffer, a plain array draw for
    one without, with `vertexCount` as the count either way.

    `Math.random` is a stream `rng` of which draw `k` is the `k`-th call; the
    world records how many draws have been consumed.
 */
module Scene {
  import opened Geometry
  import opened Device
  import Plane
  import Box
  import Sphere
  import Camera

  type Random = nat -> real

  datatype Transform = Transform(position: Vec3, rotation: Vec3, scale: Vec3)

  /** The handles an object keeps; `index` is absent for the plane. */
  datatype Buffers = Buffers(position: Handle, normal: Handle, color: Handle, index: Option<Handle>)

  datatype SceneObject = SceneObject(transform: Transform, buffers: Buffers, vertexCount: nat)

  /** The device, the object list and the number of random draws used. */
  datatype World = World(device: Device, objects: seq<SceneObject>, drawn: nat)

  const Origin: Vec3 := Vec3(0.0, 0.0, 0.0)
  const Unit: Vec3 := Vec3(1.0, 1.0, 1.0)

  const Empty: World := World(Device([]), [], 0)

  /** Three consecutive draws `[Math.random(), Math.random(), Math.random()]`. */
  function Sample(rng: Random, k: nat): Vec3
  {
    Vec3(rng(k), rng(k + 1), rng(k + 2))
  }

  // ---------------------------------------------------------------------
  // Builders
  // ---------------------------------------------------------------------

  /** `createPlane`: one colour draw, three attribute buffers, no index
      buffer, six vertices to draw. */
  function CreatePlane(w: World, rng: Random): (r: World)
    ensures r.drawn == w.drawn + 3
    ensures |r.objects| == |w.objects| + 1 && r.objects[..|w.objects|] == w.objects
  {
    var color := Sample(rng, w.drawn);
    var (d1, hp) := CreateBuffer(w.device, Float32(Plane.PlanePositions), false);
    var (d2, hn) := CreateBuffer(d1, Float32(Plane.PlaneNormals), false);
    var (d3, hc) := CreateBuffer(d2, Float32(Plane.PlaneColors(color)), false);
    var o := SceneObject(Transform(Origin, Origin, Unit), Buffers(hp, hn, hc, None),
                         Plane.PlaneDrawCount());
    World(d3, w.objects + [o], w.drawn + 3)
  }

  /** The six face colours of a box, drawn from `rng` starting at `k`: laid
      out flat they are exactly the next eighteen draws, in call order, so
      each face takes three fresh draws. */
  function BoxFaceColors(rng: Random, k: nat): (cs: seq<Vec3>)
    ensures |cs| == Box.FaceCount
    ensures Flatten(cs) == seq(3 * Box.FaceCount, d requires 0 <= d < 3 * Box.FaceCount => rng(k + d))
  {
    var cs := seq(Box.FaceCount, f requires 0 <= f < Box.FaceCount => Sample(rng, k + 3 * f));
    SampledDraws(rng, k, cs);
    cs
  }

  /** Colours sampled three draws apart from `k` read, flattened, as the
      consecutive draws from `k`. */
  lemma SampledDraws(rng: Random, k: nat, cs: seq<Vec3>)
    requires forall f :: 0 <= f < |cs| ==> cs[f] == Sample(rng, k + 3 * f)
    ensures Flatten(cs) == seq(3 * |cs|, d requires 0 <= d < 3 * |cs| => rng(k + d))
  {
    forall d | 0 <= d < 3 * |cs|
      ensures Flatten(cs)[d] == rng(k + d)
    {
      assert Flatten(cs)[d] == Coord(cs[d / 3], d % 3);
    }
  }

  /** `createBox(position, scale)`: eighteen colour draws, three attribute
      buffers and an index buffer; the centre and scale go on the transform. */
  function CreateBox(w: World, rng: Random, position: Vec3, scale: Vec3): (r: World)
    ensures r.drawn == w.drawn + 18
    ensures |r.objects| == |w.objects| + 1 && r.objects[..|w.objects|] == w.objects
  {
    var colors := BoxFaceColors(rng, w.drawn);
    var (d1, hp) := CreateBuffer(w.device, Float32(Box.Positions()), false);
    var (d2, hn) := CreateBuffer(d1, Float32(Box.Normals()), false);
    var (d3, hc) := CreateBuffer(d2, Float32(Box.Colors(colors)), false);
    var (d4, hi) := CreateBuffer(d3, Uint16(ToUint16Array(Box.Indices)), true);
    var o := SceneObject(Transform(position, Origin, scale), Buffers(hp, hn, hc, Some(hi)),
                         |Box.Indices|);
    World(d4, w.objects + [o], w.drawn + 18)
  }

  /** `initSphere`: no random draws; the vertex buffer serves as both the
      position and the normal buffer. */
  function InitSphere(w: World, t: Trig): (r: World)
    ensures r.drawn == w.drawn
    ensures |r.objects| == |w.objects| + 1 && r.objects[..|w.objects|] == w.objects
  {
    var n := Sphere.SphereDiv;
    var (d1, hv) := CreateBuffer(w.device, Float32(Sphere.SphereVertices(t, n)), false);
    var (d2, hc) := CreateBuffer(d1, Float32(Sphere.SphereColors(n)), false);
    var (d3, hi) := CreateBuffer(d2, Uint16(ToUint16Array(Sphere.SphereIndices(n))), true);
    var o := SceneObject(Transform(Vec3(0.0, 1.0, 0.0), Origin, Unit), Buffers(hv, hv, hc, Some(hi)),
                         |Sphere.SphereIndices(n)|);
    World(d3, w.objects + [o], w.drawn)
  }

  /** The four boxes' `(centre, scale)` pairs, in call order. */
  const BoxPlacements: seq<(Vec3, Vec3)> := [
    (Vec3(1.5, 1.5, 0.0), Vec3(1.0, 3.0, 1.0)),
    (Vec3(-1.5, 0.75, 0.0), Vec3(1.0, 1.5, 1.0)),
    (Vec3(0.0, 0.5, 1.5), Vec3(2.0, 1.0, 1.0)),
    (Vec3(0.0, 0.5, -1.5), Vec3(2.0, 1.0, 1.0))
  ]

  /** Builder call `k` of `init`: the plane, then the four boxes, then the
      sphere. `init` makes calls `0 .. 5` only. */
  function Step(w: World, rng: Random, t: Trig, k: nat): (r: World)
    ensures |r.objects| == |w.objects| + 1 && r.objects[..|w.objects|] == w.objects
    ensures r.drawn == w.drawn + Draws(k)
  {
    if k == 0 then CreatePlane(w, rng)
    else if k <= 4 then CreateBox(w, rng, BoxPlacements[k - 1].0, BoxPlacements[k - 1].1)
    else InitSphere(w, t)
  }

  const ObjectCount: nat := 6

  /** The world after the first `k` calls of a builder sequence `step`,
      starting from nothing. */
  function Build(step: (World, nat) -> World, k: nat): World
  {
    if k == 0 then Empty else step(Build(step, k - 1), k - 1)
  }

  /** `init`'s builder calls as one step function. */
  function Builders(rng: Random, t: Trig): (World, nat) -> World
  {
    (w: World, k: nat) => Step(w, rng, t, k)
  }

  /** The world after the first `k` builder calls of `init`. */
  function Stage(rng: Random, t: Trig, k: nat): World
    requires k <= ObjectCount
  {
    Build(Builders(rng, t), k)
  }

  /** The scene part of `init`: six objects, 75 random draws, and every
      object can be drawn without reading past the end of a buffer. */
  function Init(rng: Random, t: Trig): (r: World)
    ensures |r.objects| == ObjectCount
    ensures r.drawn == 75
    ensures Drawable(r)
  {
    StageShape(rng, t, ObjectCount);
    StageDrawable(rng, t, ObjectCount);
    Stage(rng, t, ObjectCount)
  }

  // ---------------------------------------------------------------------
  // Draw dispatch
  // ---------------------------------------------------------------------

  datatype DrawCall =
    | DrawElements(indexBuffer: Handle, count: nat)
    | DrawArrays(first: nat, count: nat)

  /** `if (object.buffers.index) drawElements(...) else drawArrays(...)`. */
  function Dispatch(o: SceneObject): (c: DrawCall)
    ensures c.DrawElements? <==> o.buffers.index.Some?
    ensures c.DrawElements? ==> c.indexBuffer == o.buffers.index.value
    ensures c.DrawArrays? ==> c.first == 0
    ensures c.count == o.vertexCount
  {
    match o.buffers.index
    case Some(h) => DrawElements(h, o.vertexCount)
    case None => DrawArrays(0, o.vertexCount)
  }

  /** The draw loop of `render`: one call per object, in object order. */
  method DrawAll(objects: seq<SceneObject>) returns (calls: seq<DrawCall>)
    ensures |calls| == |objects|
    ensures forall i :: 0 <= i < |objects| ==>
      (calls[i].DrawElements? <==> objects[i].buffers.index.Some?) &&
      calls[i].count == objects[i].vertexCount
    ensures forall i :: 0 <= i < |objects| ==> calls[i] == Dispatch(objects[i])
  {
    calls := [];
    var i := 0;
    while i < |objects|
      invariant 0 <= i <= |objects|
      invariant |calls| == i
      invariant forall k :: 0 <= k < i ==> calls[k] == Dispatch(objects[k])
    {
      var o := objects[i];
      var c;
      if o.buffers.index.Some? {
        c := DrawElements(o.buffers.index.value, o.vertexCount);
      } else {
        c := DrawArrays(0, o.vertexCount);
      }
      calls := calls + [c];
      i := i + 1;
    }
  }

  /** One frame of `render`: advance the camera, place the eye, then draw
      every object. From a reachable camera state the next one is reachable
      and the eye stays within its mode's bounds; the draws are one per
      object, indexed exactly for the objects with an index buffer. */
  method RenderFrame(t: Trig, cam: Camera.CameraState, objects: seq<SceneObject>)
    returns (next: Camera.CameraState, eye: Vec3, calls: seq<DrawCall>)
    ensures (next, eye) == Camera.Frame(t, cam)
    ensures Camera.Valid(cam) ==> Camera.Valid(next)
    ensures Camera.Valid(cam) && next.animationType == 0 ==> -6.0 <= eye.x <= 6.0 && eye.y == 8.0
    ensures Camera.Valid(cam) && next.animationType != 0 ==> 0.0 <= eye.y <= 5.0
    ensures |calls| == |objects|
    ensures forall i :: 0 <= i < |objects| ==>
      (calls[i].DrawElements? <==> objects[i].buffers.index.Some?) &&
      calls[i].count == objects[i].vertexCount
  {
    next := Camera.Tick(cam);
    eye := Camera.Eye(t, next);
    calls := DrawAll(objects);
  }

  // ---------------------------------------------------------------------
  // Draw safety
  // ---------------------------------------------------------------------

  /** Vertices a handle supplies as a vertex attribute: the number of whole
      triples in a float buffer bound to `ARRAY_BUFFER`, and none otherwise. */
  function AttributeVertices(d: Device, h: Handle): nat
  {
    match Lookup(d, h)
    case Some(Buffer(ArrayBuffer, Float32(fs))) => |fs| / 3
    case _ => 0
  }

  /** Vertices every attribute of `o` can supply: the least over position,
      normal and colour. */
  function Supplied(d: Device, o: SceneObject): nat
  {
    var p := AttributeVertices(d, o.buffers.position);
    var n := AttributeVertices(d, o.buffers.normal);
    var c := AttributeVertices(d, o.buffers.color);
    if p <= n && p <= c then p else if n <= c then n else c
  }

  /** The stored index list of an element-array buffer, if `h` is one. */
  function IndexData(d: Device, h: Handle): Option<seq<int>>
  {
    match Lookup(d, h)
    case Some(Buffer(ElementArrayBuffer, Uint16(xs))) => Some(xs)
    case _ => None
  }

  /** The draw `o` issues reads only data that exists: an array draw reads
      vertices `0 .. count - 1` of every attribute; an indexed draw reads
      `count` entries of a 16-bit index buffer, each naming a vertex every
      attribute supplies. */
  predicate DrawInBounds(d: Device, o: SceneObject)
  {
    match Dispatch(o)
    case DrawArrays(first, count) => first + count <= Supplied(d, o)
    case DrawElements(h, count) =>
      IndexData(d, h).Some? && count <= |IndexData(d, h).value| &&
      forall k :: 0 <= k < count ==> 0 <= IndexData(d, h).value[k] < Supplied(d, o)
  }

  /** `d2` keeps every buffer of `d1` under the same handle. */
  predicate Extends(d1: Device, d2: Device)
  {
    d1.buffers <= d2.buffers
  }

  /** Allocating more buffers never invalidates a draw. */
  lemma DrawInBoundsKept(d1: Device, d2: Device, o: SceneObject)
    requires Extends(d1, d2) && DrawInBounds(d1, o)
    ensures DrawInBounds(d2, o)
  {
    assert forall h :: Lookup(d1, h).Some? ==> Lookup(d2, h) == Lookup(d1, h);
    assert AttributeVertices(d2, o.buffers.position) >= AttributeVertices(d1, o.buffers.position);
  }

  /** Every object of `w` can be drawn without reading out of bounds. */
  predicate Drawable(w: World)
  {
    forall i :: 0 <= i < |w.objects| ==> DrawInBounds(w.device, w.objects[i])
  }

  /** Objects already drawable stay drawable while later buffers are added. */
  lemma DrawableKept(w: World, d: Device, o: SceneObject)
    requires Drawable(w) && Extends(w.device, d) && DrawInBounds(d, o)
    ensures Drawable(World(d, w.objects + [o], w.drawn))
  {
    forall i | 0 <= i < |w.objects|
      ensures DrawInBounds(d, w.objects[i])
    {
      DrawInBoundsKept(w.device, d, w.objects[i]);
    }
  }

  /** The plane's array draw reads six vertices, and each of its three
      attribute buffers holds six. */
  lemma PlaneDrawable(w: World, rng: Random)
    requires Drawable(w)
    ensures Drawable(CreatePlane(w, rng))
  {
    var color := Sample(rng, w.drawn);
    var (d1, hp) := CreateBuffer(w.device, Float32(Plane.PlanePositions), false);
    var (d2, hn) := CreateBuffer(d1, Float32(Plane.PlaneNormals), false);
    var (d3, hc) := CreateBuffer(d2, Float32(Plane.PlaneColors(color)), false);
    var o := CreatePlane(w, rng).objects[|w.objects|];
    Plane.PlaneLayout();
    assert AttributeVertices(d3, hp) == 6 && AttributeVertices(d3, hn) == 6;
    assert AttributeVertices(d3, hc) == 6;
    DrawableKept(w, d3, o);
  }

  /** Each of the box's 36 indices survives the 16-bit conversion and names
      one of the 24 vertices every attribute buffer holds. */
  lemma BoxDrawable(w: World, rng: Random, position: Vec3, scale: Vec3)
    requires Drawable(w)
    ensures Drawable(CreateBox(w, rng, position, scale))
  {
    var colors := BoxFaceColors(rng, w.drawn);
    var (d1, hp) := CreateBuffer(w.device, Float32(Box.Positions()), false);
    var (d2, hn) := CreateBuffer(d1, Float32(Box.Normals()), false);
    var (d3, hc) := CreateBuffer(d2, Float32(Box.Colors(colors)), false);
    var (d4, hi) := CreateBuffer(d3, Uint16(ToUint16Array(Box.Indices)), true);
    var o := CreateBox(w, rng, position, scale).objects[|w.objects|];
    Box.BoxIndexBounds();
    Box.BoxIndexPattern();
    Uint16Exact(Box.Indices);
    assert AttributeVertices(d4, hp) == 24 && AttributeVertices(d4, hn) == 24;
    assert AttributeVertices(d4, hc) == 24;
    assert IndexData(d4, hi) == Some(Box.Indices);
    DrawableKept(w, d4, o);
  }

  /** Every sphere index, kept intact by the 16-bit conversion, is below the
      49 vertices of the shared position/normal buffer, and the colour
      buffer holds more triples than that. */
  lemma SphereDrawable(w: World, t: Trig)
    requires Drawable(w)
    ensures Drawable(InitSphere(w, t))
  {
    var n := Sphere.SphereDiv;
    var (d1, hv) := CreateBuffer(w.device, Float32(Sphere.SphereVertices(t, n)), false);
    var (d2, hc) := CreateBuffer(d1, Float32(Sphere.SphereColors(n)), false);
    var (d3, hi) := CreateBuffer(d2, Uint16(ToUint16Array(Sphere.SphereIndices(n))), true);
    var o := InitSphere(w, t).objects[|w.objects|];
    Sphere.SphereDivFitsUint16();
    Sphere.SphereIndexBounds(n);
    Sphere.SphereColorsCoverVertices(n);
    assert AttributeVertices(d3, hv) == (n + 1) * (n + 1);
    assert AttributeVertices(d3, hc) >= (n + 1) * (n + 1);
    assert IndexData(d3, hi) == Some(Sphere.SphereIndices(n));
    DrawableKept(w, d3, o);
  }

  lemma StepDrawable(w: World, rng: Random, t: Trig, k: nat)
    requires Drawable(w)
    ensures Drawable(Step(w, rng, t, k))
  {
    if k == 0 {
      PlaneDrawable(w, rng);
    } else if k <= 4 {
      BoxDrawable(w, rng, BoxPlacements[k - 1].0, BoxPlacements[k - 1].1);
    } else {
      SphereDrawable(w, t);
    }
  }

  /** Under a step function that keeps worlds drawable, every world it
      builds from nothing is drawable. */
  lemma {:induction false} BuildDrawable(step: (World, nat) -> World, k: nat)
    requires forall w, j :: Drawable(w) ==> Drawable(step(w, j))
    ensures Drawable(Build(step, k))
  {
    if k > 0 {
      BuildDrawable(step, k - 1);
      assert Drawable(step(Build(step, k - 1), k - 1));
    }
  }

  lemma BuildersDrawable(rng: Random, t: Trig)
    ensures forall w, j :: Drawable(w) ==> Drawable(Builders(rng, t)(w, j))
  {
    forall w, j | Drawable(w)
      ensures Drawable(Builders(rng, t)(w, j))
    {
      StepDrawable(w, rng, t, j);
    }
  }

  lemma StageDrawable(rng: Random, t: Trig, k: nat)
    requires k <= ObjectCount
    ensures Drawable(Stage(rng, t, k))
  {
    BuildersDrawable(rng, t);
    BuildDrawable(Builders(rng, t), k);
  }

  // ---------------------------------------------------------------------
  // Scene layout
  // ---------------------------------------------------------------------

  lemma LookupKept(d1: Device, d2: Device, h: Handle)
    requires Extends(d1, d2) && Lookup(d1, h).Some?
    ensures Lookup(d2, h) == Lookup(d1, h)
  {
  }

  /** The plane object: identity transform, no index buffer, six vertices,
      and a colour buffer holding the colour drawn at the current position
      of the stream. */
  lemma PlaneObject(w: World, rng: Random)
    ensures Extends(w.device, CreatePlane(w, rng).device)
    ensures CreatePlane(w, rng).objects[|w.objects|].transform == Transform(Origin, Origin, Unit)
    ensures CreatePlane(w, rng).objects[|w.objects|].buffers.index.None?
    ensures CreatePlane(w, rng).objects[|w.objects|].vertexCount == Plane.PlaneVertexCount
    ensures Lookup(CreatePlane(w, rng).device, CreatePlane(w, rng).objects[|w.objects|].buffers.color)
         == Some(Buffer(ArrayBuffer, Float32(Plane.PlaneColors(Sample(rng, w.drawn)))))
  {
    Plane.PlaneLayout();
  }

  /** A box object: the given centre and scale, an index buffer, 36 indices
      to draw, and a colour buffer built from the next eighteen draws. */
  lemma BoxObject(w: World, rng: Random, position: Vec3, scale: Vec3)
    ensures Extends(w.device, CreateBox(w, rng, position, scale).device)
    ensures CreateBox(w, rng, position, scale).objects[|w.objects|].transform
         == Transform(position, Origin, scale)
    ensures CreateBox(w, rng, position, scale).objects[|w.objects|].buffers.index.Some?
    ensures CreateBox(w, rng, position, scale).objects[|w.objects|].vertexCount == Box.BoxIndexCount
    ensures Lookup(CreateBox(w, rng, position, scale).device,
                   CreateBox(w, rng, position, scale).objects[|w.objects|].buffers.color)
         == Some(Buffer(ArrayBuffer, Float32(Box.Colors(BoxFaceColors(rng, w.drawn)))))
  {
    Box.BoxIndexPattern();
  }

  /** The sphere object: centred at `(0, 1, 0)`, one buffer bound as both
      position and normal, an index buffer, and `6 n^2 = 216` indices to draw. */
  lemma SphereObject(w: World, t: Trig)
    ensures Extends(w.device, InitSphere(w, t).device)
    ensures InitSphere(w, t).objects[|w.objects|].transform
         == Transform(Vec3(0.0, 1.0, 0.0), Origin, Unit)
    ensures InitSphere(w, t).objects[|w.objects|].buffers.position
         == InitSphere(w, t).objects[|w.objects|].buffers.normal
    ensures InitSphere(w, t).objects[|w.objects|].buffers.index.Some?
    ensures InitSphere(w, t).objects[|w.objects|].vertexCount == 216
  {
  }

  /** Random draws consumed by builder call `k` alone: three for the plane's
      colour, eighteen for a box's six face colours, none for the sphere. */
  function Draws(k: nat): nat
  {
    if k == 0 then 3 else if k <= 4 then 18 else 0
  }

  /** Random draws consumed by the first `k` builder calls: three for the
      plane, eighteen per box, none for the sphere. */
  function DrawsBefore(k: nat): nat
  {
    if k == 0 then 0 else if k <= 5 then 3 + 18 * (k - 1) else 75
  }

  /** `r` is `w` with one object appended, every earlier object and buffer
      kept. */
  predicate Appended(w: World, r: World)
  {
    |r.objects| == |w.objects| + 1 && r.objects[..|w.objects|] == w.objects &&
    Extends(w.device, r.device)
  }

  /** Every builder call appends one object and consumes `Draws(k)`
      numbers. */
  lemma StepAppends(w: World, rng: Random, t: Trig, k: nat)
    ensures Appended(w, Step(w, rng, t, k))
    ensures Step(w, rng, t, k).drawn == w.drawn + Draws(k)
  {
    if k == 0 {
      PlaneObject(w, rng);
    } else if k <= 4 {
      BoxObject(w, rng, BoxPlacements[k - 1].0, BoxPlacements[k - 1].1);
    } else {
      SphereObject(w, t);
    }
  }

  /** After `k` calls of a step function that only appends, there are `k`
      objects. */
  lemma {:induction false} BuildLength(step: (World, nat) -> World, k: nat)
    requires forall w, j :: Appended(w, step(w, j))
    ensures |Build(step, k).objects| == k
  {
    if k > 0 {
      BuildLength(step, k - 1);
      assert Appended(Build(step, k - 1), step(Build(step, k - 1), k - 1));
    }
  }

  /** Under a step function that only appends, later calls leave object `i`
      and every buffer untouched. */
  lemma {:induction false} BuildKeeps(step: (World, nat) -> World, i: nat, k: nat)
    requires forall w, j :: Appended(w, step(w, j))
    requires i < k
    ensures |Build(step, i + 1).objects| == i + 1 && i < |Build(step, k).objects|
    ensures Build(step, k).objects[i] == Build(step, i + 1).objects[i]
    ensures Extends(Build(step, i + 1).device, Build(step, k).device)
  {
    BuildLength(step, i + 1);
    BuildLength(step, k);
    if k > i + 1 {
      BuildKeeps(step, i, k - 1);
      var w := Build(step, k - 1);
      assert Appended(w, step(w, k - 1));
      assert Build(step, k).objects[i] == Build(step, k).objects[..|w.objects|][i];
    }
  }

  lemma BuildersAppend(rng: Random, t: Trig)
    ensures forall w, j :: Appended(w, Builders(rng, t)(w, j))
    ensures forall w, j :: Builders(rng, t)(w, j).drawn
                        == w.drawn + Draws(j)
  {
    forall w, j
      ensures Appended(w, Builders(rng, t)(w, j))
    {
      StepAppends(w, rng, t, j);
    }
  }

  /** After `k` builder calls there are `k` objects and `DrawsBefore(k)`
      numbers have been drawn. */
  lemma StageShape(rng: Random, t: Trig, k: nat)
    requires k <= ObjectCount
    ensures |Stage(rng, t, k).objects| == k
    ensures Stage(rng, t, k).drawn == DrawsBefore(k)
  {
    BuildersAppend(rng, t);
    BuildLength(Builders(rng, t), k);
    BuildDrawn(Builders(rng, t), k);
  }

  /** Under a step function whose call `j` consumes `Draws(j)` numbers, `k`
      calls consume `DrawsBefore(k)` in all. */
  lemma {:induction false} BuildDrawn(step: (World, nat) -> World, k: nat)
    requires forall w, j :: step(w, j).drawn == w.drawn + Draws(j)
    ensures Build(step, k).drawn == DrawsBefore(k)
  {
    if k > 0 {
      BuildDrawn(step, k - 1);
      var w := Build(step, k - 1);
      assert step(w, k - 1).drawn == w.drawn + Draws(k - 1);
    }
  }

  /** Later builder calls leave object `i` and its buffers untouched. */
  lemma StageKeeps(rng: Random, t: Trig, i: nat, k: nat)
    requires i < k <= ObjectCount
    ensures |Stage(rng, t, i + 1).objects| == i + 1 && i < |Stage(rng, t, k).objects|
    ensures Stage(rng, t, k).objects[i] == Stage(rng, t, i + 1).objects[i]
    ensures Extends(Stage(rng, t, i + 1).device, Stage(rng, t, k).device)
  {
    BuildersAppend(rng, t);
    BuildKeeps(Builders(rng, t), i, k);
  }

  /** The objects in order: the plane with the identity transform and six
      vertices drawn from arrays; the four boxes at their listed centres and
      scales with 36 indices each; the sphere at `(0, 1, 0)` with one buffer
      for positions and normals and 216 indices. Only the plane is drawn
      without indices. */
  lemma InitObject(rng: Random, t: Trig, i: nat)
    requires i < ObjectCount
    ensures |Init(rng, t).objects| == ObjectCount
    ensures Dispatch(Init(rng, t).objects[i]).DrawElements? <==> i != 0
    ensures i == 0 ==>
      Init(rng, t).objects[i].transform == Transform(Origin, Origin, Unit) &&
      Init(rng, t).objects[i].vertexCount == Plane.PlaneVertexCount
    ensures 1 <= i <= 4 ==>
      Init(rng, t).objects[i].transform
        == Transform(BoxPlacements[i - 1].0, Origin, BoxPlacements[i - 1].1) &&
      Init(rng, t).objects[i].vertexCount == Box.BoxIndexCount
    ensures i == 5 ==>
      Init(rng, t).objects[i].transform == Transform(Vec3(0.0, 1.0, 0.0), Origin, Unit) &&
      Init(rng, t).objects[i].buffers.position == Init(rng, t).objects[i].buffers.normal &&
      Init(rng, t).objects[i].vertexCount == 216
  {
    StageKeeps(rng, t, i, ObjectCount);
    StageShape(rng, t, i);
    var w := Stage(rng, t, i);
    if i == 0 {
      PlaneObject(w, rng);
    } else if i <= 4 {
      BoxObject(w, rng, BoxPlacements[i - 1].0, BoxPlacements[i - 1].1);
    } else {
      SphereObject(w, t);
    }
  }

  /** Where the random numbers go: the plane's colour is draws 0-2, and face
      `f` of box `b` (`b` = 1 .. 4, the object position) is coloured with
      draws `3 + 18 (b - 1) + 3 f` onwards. */
  lemma InitColors(rng: Random, t: Trig, i: nat)
    requires i < 5
    ensures |Init(rng, t).objects| == ObjectCount
    ensures i == 0 ==>
      Lookup(Init(rng, t).device, Init(rng, t).objects[i].buffers.color)
        == Some(Buffer(ArrayBuffer, Float32(Plane.PlaneColors(Sample(rng, 0)))))
    ensures i > 0 ==>
      Lookup(Init(rng, t).device, Init(rng, t).objects[i].buffers.color)
        == Some(Buffer(ArrayBuffer, Float32(Box.Colors(BoxFaceColors(rng, 3 + 18 * (i - 1))))))
  {
    StageKeeps(rng, t, i, ObjectCount);
    StageShape(rng, t, i);
    var w := Stage(rng, t, i);
    var o := Init(rng, t).objects[i];
    if i == 0 {
      PlaneObject(w, rng);
    } else {
      BoxObject(w, rng, BoxPlacements[i - 1].0, BoxPlacements[i - 1].1);
    }
    LookupKept(Stage(rng, t, i + 1).device, Init(rng, t).device, o.buffers.color);
  }
}
