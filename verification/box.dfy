/** The box builder (`createBox`): 24 vertices, four per face, not shared
    between faces so that every face carries its own flat normal; 36 indices,
    two triangles per face; one colour per face broadcast to its four vertices.

    Faces come in the order front (+Z), back (-Z), top (+Y), bottom (-Y),
    right (+X), left (-X). The centre and scale passed to `createBox` are not
    applied to the vertices; they go on the scene object's transform.
 */
module Box {
  import opened Geometry

  const FaceCount: nat := 6
  const VerticesPerFace: nat := 4
  const BoxVertexCount: nat := 24
  const BoxIndexCount: nat := 36

  /** The corners as listed, before halving: every coordinate is `1` or `-1`.
      Four corners per face, faces in face order. */
  const Corners: seq<Vec3> :=
    FrontCorners + BackCorners + TopCorners + BottomCorners + RightCorners + LeftCorners

  const FrontCorners: seq<Vec3> :=
    [Vec3(-1.0, -1.0,  1.0), Vec3( 1.0, -1.0,  1.0), Vec3( 1.0,  1.0,  1.0), Vec3(-1.0,  1.0,  1.0)]
  const BackCorners: seq<Vec3> :=
    [Vec3(-1.0, -1.0, -1.0), Vec3(-1.0,  1.0, -1.0), Vec3( 1.0,  1.0, -1.0), Vec3( 1.0, -1.0, -1.0)]
  const TopCorners: seq<Vec3> :=
    [Vec3(-1.0,  1.0, -1.0), Vec3(-1.0,  1.0,  1.0), Vec3( 1.0,  1.0,  1.0), Vec3( 1.0,  1.0, -1.0)]
  const BottomCorners: seq<Vec3> :=
    [Vec3(-1.0, -1.0, -1.0), Vec3( 1.0, -1.0, -1.0), Vec3( 1.0, -1.0,  1.0), Vec3(-1.0, -1.0,  1.0)]
  const RightCorners: seq<Vec3> :=
    [Vec3( 1.0, -1.0, -1.0), Vec3( 1.0,  1.0, -1.0), Vec3( 1.0,  1.0,  1.0), Vec3( 1.0, -1.0,  1.0)]
  const LeftCorners: seq<Vec3> :=
    [Vec3(-1.0, -1.0, -1.0), Vec3(-1.0, -1.0,  1.0), Vec3(-1.0,  1.0,  1.0), Vec3(-1.0,  1.0, -1.0)]

  /** The listed corners of face `f`. */
  function FaceCorners(f: nat): seq<Vec3>
    requires f < FaceCount
  {
    if f == 0 then FrontCorners
    else if f == 1 then BackCorners
    else if f == 2 then TopCorners
    else if f == 3 then BottomCorners
    else if f == 4 then RightCorners
    else LeftCorners
  }

  /** Outward normal of each face, in face order. */
  const FaceNormals: seq<Vec3> := [
    Vec3(0.0, 0.0, 1.0), Vec3(0.0, 0.0, -1.0),
    Vec3(0.0, 1.0, 0.0), Vec3(0.0, -1.0, 0.0),
    Vec3(1.0, 0.0, 0.0), Vec3(-1.0, 0.0, 0.0)
  ]

  /** The index list as written: two triangles per face. */
  const Indices: seq<int> := [
    0,  1,  2,      0,  2,  3,
    4,  5,  6,      4,  6,  7,
    8,  9,  10,     8,  10, 11,
    12, 13, 14,     12, 14, 15,
    16, 17, 18,     16, 18, 19,
    20, 21, 22,     20, 22, 23
  ]

  /** Within each face the two triangles are `(0, 1, 2)` and `(0, 2, 3)`. */
  const FacePattern: seq<int> := [0, 1, 2, 0, 2, 3]

  /** The loop `positions[i] *= 0.5` over the whole array: doubling any
      entry of the result gives back the entry it came from. */
  function Halve(s: seq<real>): (r: seq<real>)
    ensures |r| == |s|
    ensures forall k :: 0 <= k < |s| ==> r[k] + r[k] == s[k]
  {
    seq(|s|, k requires 0 <= k < |s| => s[k] * 0.5)
  }

  /** The position array handed to the device: 24 vertices, vertex `k` the
      listed corner `k` halved. */
  function Positions(): (r: seq<real>)
    ensures |r| == 3 * BoxVertexCount
    ensures forall k :: 0 <= k < BoxVertexCount ==> VertexAt(r, k) == Scale(Corners[k], 0.5)
  {
    HalvedCorners();
    Halve(Flatten(Corners))
  }

  lemma HalvedCorners()
    ensures forall k :: 0 <= k < BoxVertexCount ==>
      VertexAt(Halve(Flatten(Corners)), k) == Scale(Corners[k], 0.5)
  {
    var flat := Flatten(Corners);
    var p := Halve(flat);
    forall k | 0 <= k < BoxVertexCount
      ensures VertexAt(p, k) == Scale(Corners[k], 0.5)
    {
      FlattenAt(Corners, k);
      assert p[3 * k] == flat[3 * k] * 0.5;
      assert p[3 * k + 1] == flat[3 * k + 1] * 0.5;
      assert p[3 * k + 2] == flat[3 * k + 2] * 0.5;
    }
  }

  /** Position of vertex `k` as uploaded. */
  function Corner(k: nat): (c: Vec3)
    requires k < BoxVertexCount
    ensures c == Scale(Corners[k], 0.5)
  {
    VertexAt(Positions(), k)
  }

  /** The normal array: each face normal repeated for the face's four
      vertices, so vertex `k` has the normal of face `k / 4`; it is as long
      as the position array. */
  function Normals(): (r: seq<real>)
    ensures |r| == |Positions()|
    ensures forall k :: 0 <= k < BoxVertexCount ==> VertexAt(r, k) == FaceNormals[k / VerticesPerFace]
  {
    PerFaceTable(FaceNormals);
    Flatten(Expand(FaceNormals, VerticesPerFace))
  }

  /** The colour array built from six per-face colours: vertex `k` has the
      colour of face `k / 4`, and the array is as long as the position
      array. */
  function Colors(faceColors: seq<Vec3>): (r: seq<real>)
    requires |faceColors| == FaceCount
    ensures |r| == |Positions()|
    ensures forall k :: 0 <= k < BoxVertexCount ==> VertexAt(r, k) == faceColors[k / VerticesPerFace]
  {
    PerFaceTable(faceColors);
    Flatten(Expand(faceColors, VerticesPerFace))
  }

  predicate IsUnit(x: real)
  {
    x == 1.0 || x == -1.0
  }

  predicate IsHalfUnit(x: real)
  {
    x == 0.5 || x == -0.5
  }

  /** Corner `k` of the listed table is corner `k % 4` of face `k / 4`. */
  lemma CornerOfFace(k: nat)
    requires k < BoxVertexCount
    ensures Corners[k] == FaceCorners(k / VerticesPerFace)[k % VerticesPerFace]
  {
  }

  /** Each listed face is a square of the cube with corners at `(+-1, +-1, +-1)`,
      lying in the plane one unit out along the face normal. */
  lemma FaceCornersOnPlane(f: nat)
    requires f < FaceCount
    ensures |FaceCorners(f)| == VerticesPerFace
    ensures forall v | v in FaceCorners(f) ::
      IsUnit(v.x) && IsUnit(v.y) && IsUnit(v.z) && Dot(v, FaceNormals[f]) == 1.0
  {
  }

  lemma DotHalf(v: Vec3, n: Vec3)
    ensures Dot(Scale(v, 0.5), n) == 0.5 * Dot(v, n)
  {
  }

  /** Listed corner `k` has coordinates `+-1` and lies one unit out along the
      normal of its face. */
  lemma CornerOnItsFace(k: nat)
    requires k < BoxVertexCount
    ensures IsUnit(Corners[k].x) && IsUnit(Corners[k].y) && IsUnit(Corners[k].z)
    ensures Dot(Corners[k], FaceNormals[k / VerticesPerFace]) == 1.0
  {
    CornerOfFace(k);
    FaceCornersOnPlane(k / VerticesPerFace);
    assert Corners[k] in FaceCorners(k / VerticesPerFace);
  }

  /** Box positions: 24 vertices (72 numbers), and after the halving loop
      every coordinate is `0.5` or `-0.5`. */
  lemma BoxCoordinates()
    ensures |Positions()| == 3 * BoxVertexCount
    ensures forall i :: 0 <= i < |Positions()| ==> IsHalfUnit(Positions()[i])
  {
    var p := Positions();
    forall i | 0 <= i < |p|
      ensures IsHalfUnit(p[i])
    {
      var k := i / 3;
      CornerOnItsFace(k);
      var c := Scale(Corners[k], 0.5);
      assert VertexAt(p, k) == c;
      assert IsHalfUnit(c.x) && IsHalfUnit(c.y) && IsHalfUnit(c.z);
      assert i == 3 * k || i == 3 * k + 1 || i == 3 * k + 2;
    }
  }

  /** The four vertices of face `f` all lie on that face's plane, half a unit
      out along its outward normal. */
  lemma BoxFacePlanes()
    ensures forall k :: 0 <= k < BoxVertexCount ==>
      Dot(Corner(k), FaceNormals[k / VerticesPerFace]) == 0.5
  {
    forall k | 0 <= k < BoxVertexCount
      ensures Dot(Corner(k), FaceNormals[k / VerticesPerFace]) == 0.5
    {
      CornerOnItsFace(k);
      DotHalf(Corners[k], FaceNormals[k / VerticesPerFace]);
    }
  }

  /** Box indices: 36 entries, and face `f` uses exactly `4f, 4f+1, 4f+2` and
      `4f, 4f+2, 4f+3`. */
  lemma BoxIndexPattern()
    ensures |Indices| == BoxIndexCount
    ensures forall k :: 0 <= k < BoxIndexCount ==>
      Indices[k] == VerticesPerFace * (k / 6) + FacePattern[k % 6]
  {
    forall k | 0 <= k < BoxIndexCount
      ensures Indices[k] == VerticesPerFace * (k / 6) + FacePattern[k % 6]
    {
      FaceEntry(k / 6, k % 6);
    }
  }

  /** Entry `e` of face `f`'s block of six. The empty branches split the
      proof into one case per face, each checked against the literal list. */
  lemma FaceEntry(f: nat, e: nat)
    requires f < FaceCount && e < 6
    ensures Indices[6 * f + e] == VerticesPerFace * f + FacePattern[e]
  {
    if f == 0 {
    } else if f == 1 {
    } else if f == 2 {
    } else if f == 3 {
    } else if f == 4 {
    } else {
    }
  }

  /** Every index addresses one of the 24 vertices, and every triangle (three
      consecutive entries `3t .. 3t+2`) uses only vertices of face `t / 2`:
      no triangle crosses faces. */
  lemma BoxIndexBounds()
    ensures forall k :: 0 <= k < BoxIndexCount ==> 0 <= Indices[k] < BoxVertexCount
    ensures forall k :: 0 <= k < BoxIndexCount ==> Indices[k] / VerticesPerFace == (k / 3) / 2
  {
    BoxIndexPattern();
    forall k | 0 <= k < BoxIndexCount
      ensures 0 <= Indices[k] < BoxVertexCount
      ensures Indices[k] / VerticesPerFace == (k / 3) / 2
    {
      IndexInItsFace(k, Indices[k]);
    }
  }

  lemma IndexInItsFace(k: nat, v: int)
    requires k < BoxIndexCount
    requires v == VerticesPerFace * (k / 6) + FacePattern[k % 6]
    ensures 0 <= v < BoxVertexCount && v / VerticesPerFace == (k / 3) / 2
  {
    var f, e := k / 6, k % 6;
    assert 0 <= FacePattern[e] < VerticesPerFace;
    DivModUnique(v, VerticesPerFace, f, FacePattern[e]);
    assert (k / 3) / 2 == f;
  }

  /** A per-face table of six values, each repeated four times in face order,
      gives vertex `k` the value of face `k / 4`; it is as long as the position
      array. */
  lemma PerFaceTable(vs: seq<Vec3>)
    requires |vs| == FaceCount
    ensures |Flatten(Expand(vs, VerticesPerFace))| == 3 * BoxVertexCount
    ensures forall k :: 0 <= k < BoxVertexCount ==>
      VertexAt(Flatten(Expand(vs, VerticesPerFace)), k) == vs[k / VerticesPerFace]
  {
    ExpandLength(vs, VerticesPerFace);
    forall k | 0 <= k < BoxVertexCount
      ensures VertexAt(Flatten(Expand(vs, VerticesPerFace)), k) == vs[k / VerticesPerFace]
    {
      PerGroupAt(vs, VerticesPerFace, k);
    }
  }
}
