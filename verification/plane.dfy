/** The ground plane (`createPlane`): two triangles covering the square
    `[-5, 5] x [-5, 5]` at height 0, drawn without an index buffer, every
    normal pointing up and every vertex sharing one sampled colour.
 */
module Plane {
  import opened Geometry

  const PlaneVertexCount: nat := 6

  /** The position array as written: six vertices, two triangles. */
  const PlanePositions: seq<real> := [
    -5.0, 0.0, -5.0,   -5.0, 0.0,  5.0,    5.0, 0.0,  5.0,
    -5.0, 0.0, -5.0,    5.0, 0.0,  5.0,    5.0, 0.0, -5.0
  ]

  /** The normal array as written: `(0, 1, 0)` six times. */
  const PlaneNormals: seq<real> := [
    0.0, 1.0, 0.0,   0.0, 1.0, 0.0,   0.0, 1.0, 0.0,
    0.0, 1.0, 0.0,   0.0, 1.0, 0.0,   0.0, 1.0, 0.0
  ]

  const Up: Vec3 := Vec3(0.0, 1.0, 0.0)

  /** The colour array: `colors = colors.concat(color)` six times. It is as
      long as the position array and every triple is the one sampled colour. */
  function PlaneColors(color: Vec3): (r: seq<real>)
    ensures |r| == |PlanePositions|
    ensures forall k :: 0 <= k < PlaneVertexCount ==> VertexAt(r, k) == color
  {
    RepeatAt(color, PlaneVertexCount);
    Flatten(Repeat(color, PlaneVertexCount))
  }

  /** `vertexCount: positions.length / 3`; the division is exact. */
  function PlaneDrawCount(): (c: nat)
    ensures 3 * c == |PlanePositions|
  {
    |PlanePositions| / 3
  }

  predicate IsEdge(x: real)
  {
    x == 5.0 || x == -5.0
  }

  /** Six vertices; every one lies at height 0 on a corner of the square,
      and every normal is straight up. */
  lemma PlaneLayout()
    ensures VertexCount(PlanePositions) == PlaneVertexCount == PlaneDrawCount()
    ensures |PlanePositions| == |PlaneNormals| == 3 * PlaneVertexCount
    ensures forall k :: 0 <= k < PlaneVertexCount ==>
      VertexAt(PlanePositions, k).y == 0.0 &&
      IsEdge(VertexAt(PlanePositions, k).x) && IsEdge(VertexAt(PlanePositions, k).z)
    ensures forall k :: 0 <= k < PlaneVertexCount ==> VertexAt(PlaneNormals, k) == Up
  {
  }
}
