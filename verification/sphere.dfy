/** The sphere builder (`initSphere`) for a latitude/longitude grid with
    `n` divisions (`SPHERE_DIV`, which is 6).

    Vertex `(j, i)` for `j, i` in `0 .. n` sits at polar angle `j * pi / n`
    and azimuth `i * 2 * pi / n`; it is stored as vertex `j * (n + 1) + i`.
    Each cell `(j, i)` for `j, i` in `0 .. n - 1` becomes two triangles. The
    colour loop pushes one constant RGB triple per index, three per pass.
 */
module Sphere {
  import opened Geometry
  import opened Device

  const SphereDiv: nat := 6

  /** The colour every sphere vertex gets: the left operands of
      `1 || Math.random()` and its siblings, which are truthy, so no random
      number is ever drawn. */
  const SphereColor: Vec3 := Vec3(1.0, 0.5, 0.1)

  // ---------------------------------------------------------------------
  // Vertices
  // ---------------------------------------------------------------------

  /** Polar angle of row `j`: `j * pi / n`. */
  function Polar(t: Trig, n: nat, j: nat): real
    requires n > 0
  {
    j as real * t.pi / n as real
  }

  /** Azimuth of column `i`: `i * 2 * pi / n`. */
  function Azimuth(t: Trig, n: nat, i: nat): real
    requires n > 0
  {
    i as real * 2.0 * t.pi / n as real
  }

  /** Grid vertex `(j, i)`: `(sin ai * sin aj, cos aj, cos ai * sin aj)`. */
  function GridPoint(t: Trig, n: nat, j: nat, i: nat): Vec3
    requires n > 0
  {
    var aj, ai := Polar(t, n, j), Azimuth(t, n, i);
    Vec3(t.sin(ai) * t.sin(aj), t.cos(aj), t.cos(ai) * t.sin(aj))
  }

  /** Vertices in emission order: row `j` outer, column `i` inner. */
  function SphereGrid(t: Trig, n: nat): (g: seq<Vec3>)
    requires n > 0
    ensures |g| == (n + 1) * (n + 1)
  {
    seq((n + 1) * (n + 1), k requires 0 <= k < (n + 1) * (n + 1) =>
      GridPoint(t, n, k / (n + 1), k % (n + 1)))
  }

  /** The `vertices` array the first pair of loops fills. */
  function SphereVertices(t: Trig, n: nat): (r: seq<real>)
    requires n > 0
    ensures |r| == 3 * (n + 1) * (n + 1)
  {
    Flatten(SphereGrid(t, n))
  }

  /** The vertex loops: `(n + 1)^2` vertices, `3 (n + 1)^2` numbers, grid
      vertex `(j, i)` at position `j * (n + 1) + i`. */
  method SphereVertexLoop(t: Trig, n: nat) returns (vertices: seq<real>)
    requires n > 0
    ensures vertices == SphereVertices(t, n)
    ensures |vertices| == 3 * (n + 1) * (n + 1)
    ensures forall j, i :: 0 <= j <= n && 0 <= i <= n ==>
      GridIndex(n, j, i) < VertexCount(vertices) &&
      VertexAt(vertices, GridIndex(n, j, i)) == GridPoint(t, n, j, i)
  {
    ghost var grid := SphereGrid(t, n);
    ghost var p := 0;
    vertices := [];
    var j := 0;
    while j <= n
      invariant 0 <= j <= n + 1
      invariant p == GridIndex(n, j, 0) && p <= |grid|
      invariant vertices == Flatten(grid[..p])
    {
      var aj := Polar(t, n, j);
      var sj := t.sin(aj);
      var cj := t.cos(aj);
      var i := 0;
      while i <= n
        invariant 0 <= i <= n + 1
        invariant p == GridIndex(n, j, i) <= |grid|
        invariant vertices == Flatten(grid[..p])
      {
        var ai := Azimuth(t, n, i);
        var si := t.sin(ai);
        var ci := t.cos(ai);
        GridStep(t, n, j, i, si * sj, cj, ci * sj);
        vertices := vertices + [si * sj, cj, ci * sj];
        i := i + 1;
        p := p + 1;
      }
      RowEnd(n, j);
      j := j + 1;
    }
    RowEnd(n, n);
    assert grid[..p] == grid;
    SphereVertexAt(t, n);
  }

  /** Pushing the three coordinates computed for `(j, i)` extends the flat
      prefix by grid vertex `(j, i)`. */
  lemma GridStep(t: Trig, n: nat, j: nat, i: nat, x: real, y: real, z: real)
    requires n > 0 && j <= n && i <= n
    requires x == t.sin(Azimuth(t, n, i)) * t.sin(Polar(t, n, j))
    requires y == t.cos(Polar(t, n, j))
    requires z == t.cos(Azimuth(t, n, i)) * t.sin(Polar(t, n, j))
    ensures GridIndex(n, j, i) < (n + 1) * (n + 1)
    ensures Flatten(SphereGrid(t, n)[..GridIndex(n, j, i) + 1])
         == Flatten(SphereGrid(t, n)[..GridIndex(n, j, i)]) + [x, y, z]
  {
    var g, p := SphereGrid(t, n), GridIndex(n, j, i);
    GridSlot(t, n, j, i);
    assert g[p] == Vec3(x, y, z);
    assert g[..p + 1] == g[..p] + [g[p]];
    FlattenSnoc(g[..p], g[p]);
  }

  /** The vertex after the last one of row `j` is the first of row `j + 1`. */
  lemma RowEnd(n: nat, j: nat)
    requires j <= n
    ensures GridIndex(n, j, n + 1) == GridIndex(n, j + 1, 0) <= (n + 1) * (n + 1)
  {
    MulMono(j + 1, n + 1, n + 1);
  }

  /** Position of grid vertex `(j, i)` in the vertex order. */
  function GridIndex(n: nat, j: nat, i: nat): nat
  {
    j * (n + 1) + i
  }

  /** Slot `j * (n + 1) + i` of the grid holds vertex `(j, i)`. */
  lemma GridSlot(t: Trig, n: nat, j: nat, i: nat)
    requires n > 0 && j <= n && i <= n
    ensures GridIndex(n, j, i) < (n + 1) * (n + 1)
    ensures SphereGrid(t, n)[GridIndex(n, j, i)] == GridPoint(t, n, j, i)
  {
    MulMono(j, n, n + 1);
    DivModUnique(GridIndex(n, j, i), n + 1, j, i);
  }

  lemma SphereVertexAt(t: Trig, n: nat)
    requires n > 0
    ensures forall j, i :: 0 <= j <= n && 0 <= i <= n ==>
      GridIndex(n, j, i) < VertexCount(SphereVertices(t, n)) &&
      VertexAt(SphereVertices(t, n), GridIndex(n, j, i)) == GridPoint(t, n, j, i)
  {
    forall j, i | 0 <= j <= n && 0 <= i <= n
      ensures GridIndex(n, j, i) < VertexCount(SphereVertices(t, n))
      ensures VertexAt(SphereVertices(t, n), GridIndex(n, j, i)) == GridPoint(t, n, j, i)
    {
      GridSlot(t, n, j, i);
      FlattenAt(SphereGrid(t, n), GridIndex(n, j, i));
    }
  }

  lemma MulMono(a: nat, b: nat, c: nat)
    requires a <= b
    ensures a * c <= b * c
  {
  }

  /** Row `0` and column `0` sit at angle `0`, row `n` at `pi` and column
      `n` at `2 pi`. */
  lemma GridEnds(t: Trig, n: nat)
    requires n > 0
    ensures Azimuth(t, n, 0) == 0.0 && Azimuth(t, n, n) == 2.0 * t.pi
    ensures Polar(t, n, 0) == 0.0 && Polar(t, n, n) == t.pi
  {
    var m := n as real;
    assert m * 2.0 * t.pi == m * (2.0 * t.pi);
    RealCancel(m, 2.0 * t.pi);
    RealCancel(m, t.pi);
  }

  lemma RealCancel(m: real, a: real)
    requires m != 0.0
    ensures m * a / m == a
  {
  }

  /** The last column repeats the first: azimuth `2 pi` and azimuth `0` give
      the same point when `sin` and `cos` agree at `0` and `2 pi`, so every row
      carries its seam vertex twice. */
  lemma SeamDuplicated(t: Trig, n: nat, j: nat)
    requires n > 0 && j <= n
    requires t.sin(2.0 * t.pi) == t.sin(0.0) && t.cos(2.0 * t.pi) == t.cos(0.0)
    ensures GridPoint(t, n, j, n) == GridPoint(t, n, j, 0)
  {
    GridEnds(t, n);
  }

  /** Row `0` collapses to the north pole `(0, 1, 0)` and row `n` to the
      south pole `(0, -1, 0)`. */
  lemma PoleRows(t: Trig, n: nat, i: nat)
    requires n > 0 && i <= n
    requires t.sin(0.0) == 0.0 && t.cos(0.0) == 1.0
    requires t.sin(t.pi) == 0.0 && t.cos(t.pi) == -1.0
    ensures GridPoint(t, n, 0, i) == Vec3(0.0, 1.0, 0.0)
    ensures GridPoint(t, n, n, i) == Vec3(0.0, -1.0, 0.0)
  {
    GridEnds(t, n);
  }

  /** Every grid vertex lies on the unit sphere when `sin^2 + cos^2 = 1`;
      this is why the vertex buffer can double as the normal buffer. */
  lemma OnUnitSphere(t: Trig, n: nat, j: nat, i: nat)
    requires n > 0
    requires forall a :: t.sin(a) * t.sin(a) + t.cos(a) * t.cos(a) == 1.0
    ensures Dot(GridPoint(t, n, j, i), GridPoint(t, n, j, i)) == 1.0
  {
    var aj, ai := Polar(t, n, j), Azimuth(t, n, i);
    var si, ci, sj, cj := t.sin(ai), t.cos(ai), t.sin(aj), t.cos(aj);
    assert si * si + ci * ci == 1.0;
    assert sj * sj + cj * cj == 1.0;
    assert (si * sj) * (si * sj) + (ci * sj) * (ci * sj) == (si * si + ci * ci) * (sj * sj);
  }

  // ---------------------------------------------------------------------
  // Indices
  // ---------------------------------------------------------------------

  /** The six indices cell `(j, i)` pushes: triangles `(p1, p2, p1 + 1)` and
      `(p1 + 1, p2, p2 + 1)`, where `p1` is the cell's top-left vertex and `p2`
      the one below it. They name the grid vertices `(j, i)`, `(j + 1, i)`,
      `(j, i + 1)` and `(j + 1, i + 1)`, so for a cell of the grid every one
      addresses a vertex. */
  function CellIndices(n: nat, j: nat, i: nat): (r: seq<int>)
    ensures |r| == 6
    ensures r[0] == GridIndex(n, j, i) && r[1] == r[4] == GridIndex(n, j + 1, i)
    ensures r[2] == r[3] == GridIndex(n, j, i + 1) && r[5] == GridIndex(n, j + 1, i + 1)
    ensures j < n && i < n ==> forall e :: 0 <= e < 6 ==> 0 <= r[e] < (n + 1) * (n + 1)
  {
    CellCorners(n, j, i);
    var p1 := j * (n + 1) + i;
    var p2 := p1 + (n + 1);
    [p1, p2, p1 + 1, p1 + 1, p2, p2 + 1]
  }

  /** The vertex below `(j, i)` is `n + 1` further on, and for a cell of the
      grid the lower-right corner is still a vertex. */
  lemma CellCorners(n: nat, j: nat, i: nat)
    ensures GridIndex(n, j + 1, i) == GridIndex(n, j, i) + (n + 1)
    ensures j < n && i < n ==> GridIndex(n, j + 1, i + 1) < (n + 1) * (n + 1)
  {
    assert (j + 1) * (n + 1) == j * (n + 1) + (n + 1);
    if j < n && i < n {
      MulMono(j + 1, n, n + 1);
    }
  }

  /** Index `k` belongs to cell `k / 6`, whose row and column are its
      quotient and remainder by `n`. */
  function SphereIndices(n: nat): (r: seq<int>)
    ensures |r| == 6 * n * n
  {
    if n == 0 then [] else
      seq(6 * n * n, k requires 0 <= k < 6 * n * n =>
      CellIndices(n, (k / 6) / n, (k / 6) % n)[k % 6])
  }

  /** Cell `(j, i)` is the `(j n + i)`-th block of six. */
  function CellStart(n: nat, j: nat, i: nat): nat
  {
    6 * (j * n + i)
  }

  /** Cell `(j, i)` occupies entries `6 (j n + i) .. 6 (j n + i) + 5`, and
      they are its two triangles. */
  lemma SphereCell(n: nat, j: nat, i: nat)
    requires j < n && i < n
    ensures CellStart(n, j, i) + 6 <= |SphereIndices(n)|
    ensures SphereIndices(n)[CellStart(n, j, i)..CellStart(n, j, i) + 6] == CellIndices(n, j, i)
  {
    CellInRange(n, j, i);
    var c := j * n + i;
    var s := SphereIndices(n);
    forall e | 0 <= e < 6
      ensures s[6 * c + e] == CellIndices(n, j, i)[e]
    {
      CellEntry(n, j, i, e);
    }
  }

  lemma CellInRange(n: nat, j: nat, i: nat)
    requires j < n && i < n
    ensures j * n + i < n * n
    ensures CellStart(n, j, i) + 6 <= 6 * n * n
  {
    MulMono(j, n - 1, n);
    assert (n - 1) * n == n * n - n;
    assert 6 * n * n == 6 * (n * n);
  }

  lemma CellEntry(n: nat, j: nat, i: nat, e: nat)
    requires j < n && i < n && e < 6
    ensures CellStart(n, j, i) + e < |SphereIndices(n)|
    ensures SphereIndices(n)[CellStart(n, j, i) + e] == CellIndices(n, j, i)[e]
  {
    CellInRange(n, j, i);
    var c := j * n + i;
    var k := 6 * c + e;
    DivModUnique(k, 6, c, e);
    DivModUnique(c, n, j, i);
  }

  /** The index loops produce the cells in row-major order. */
  method SphereIndexLoop(n: nat) returns (indices: seq<int>)
    ensures indices == SphereIndices(n)
    ensures |indices| == 6 * n * n
    ensures forall j, i :: 0 <= j < n && 0 <= i < n ==>
      CellStart(n, j, i) + 6 <= |indices| &&
      indices[CellStart(n, j, i)..CellStart(n, j, i) + 6] == CellIndices(n, j, i)
  {
    ghost var all := SphereIndices(n);
    ghost var c := 0;
    indices := [];
    var j := 0;
    while j < n
      invariant 0 <= j <= n
      invariant c == CellStart(n, j, 0) <= |all|
      invariant indices == all[..c]
    {
      var i := 0;
      while i < n
        invariant 0 <= i <= n
        invariant c == CellStart(n, j, i) <= |all|
        invariant indices == all[..c]
      {
        var p1 := j * (n + 1) + i;
        var p2 := p1 + (n + 1);
        ghost var cell := CellIndices(n, j, i);
        CellStep(n, j, i);
        assert all[..c + 6] == all[..c] + cell;
        assert cell == [p1, p2, p1 + 1, p1 + 1, p2, p2 + 1];
        indices := indices + [p1, p2, p1 + 1, p1 + 1, p2, p2 + 1];
        i := i + 1;
        c := c + 6;
      }
      RowOfCells(n, j);
      j := j + 1;
    }
    assert indices == all;
    SphereCells(n);
  }

  /** Pushing cell `(j, i)` extends the emitted prefix by its six indices. */
  lemma CellStep(n: nat, j: nat, i: nat)
    requires j < n && i < n
    ensures CellStart(n, j, i) + 6 == CellStart(n, j, i + 1) <= |SphereIndices(n)|
    ensures SphereIndices(n)[..CellStart(n, j, i) + 6]
         == SphereIndices(n)[..CellStart(n, j, i)] + CellIndices(n, j, i)
  {
    var s, c := SphereIndices(n), CellStart(n, j, i);
    SphereCell(n, j, i);
    assert s[..c + 6] == s[..c] + s[c..c + 6];
  }

  /** The cell after the last one of row `j` is the first of row `j + 1`;
      after the last row every cell has been emitted. */
  lemma RowOfCells(n: nat, j: nat)
    requires j < n
    ensures CellStart(n, j, n) == CellStart(n, j + 1, 0) <= |SphereIndices(n)|
  {
    MulMono(j + 1, n, n);
    assert 6 * n * n == 6 * (n * n);
  }

  lemma SphereCells(n: nat)
    ensures forall j, i :: 0 <= j < n && 0 <= i < n ==>
      CellStart(n, j, i) + 6 <= |SphereIndices(n)| &&
      SphereIndices(n)[CellStart(n, j, i)..CellStart(n, j, i) + 6] == CellIndices(n, j, i)
  {
    forall j, i | 0 <= j < n && 0 <= i < n
      ensures CellStart(n, j, i) + 6 <= |SphereIndices(n)|
      ensures SphereIndices(n)[CellStart(n, j, i)..CellStart(n, j, i) + 6] == CellIndices(n, j, i)
    {
      SphereCell(n, j, i);
    }
  }

  /** Every sphere index is below `(n + 1)^2`: it addresses a real vertex. */
  lemma SphereIndexBounds(n: nat)
    ensures forall k :: 0 <= k < |SphereIndices(n)| ==>
      0 <= SphereIndices(n)[k] < (n + 1) * (n + 1)
  {
    forall k | 0 <= k < |SphereIndices(n)|
      ensures 0 <= SphereIndices(n)[k] < (n + 1) * (n + 1)
    {
      assert n > 0;
      var c := k / 6;
      DivBelow(k, 6, n * n);
      DivBelow(c, n, n);
      assert 0 <= c / n < n && 0 <= c % n < n;
    }
  }

  /** The bound is tight: the last index is the last vertex, `(n + 1)^2 - 1`. */
  lemma SphereLastIndex(n: nat)
    requires n > 0
    ensures SphereIndices(n)[6 * n * n - 1] == (n + 1) * (n + 1) - 1
  {
    var s := SphereIndices(n);
    var k := CellStart(n, n - 1, n - 1) + 5;
    LastCell(n);
    CellEntry(n, n - 1, n - 1, 5);
    assert s[k] == CellIndices(n, n - 1, n - 1)[5];
    assert k == 6 * n * n - 1;
  }

  /** The last entry of the last cell sits at `6 n^2 - 1` and names the last
      grid vertex. */
  lemma LastCell(n: nat)
    requires n > 0
    ensures CellStart(n, n - 1, n - 1) + 5 == 6 * n * n - 1
    ensures GridIndex(n, n, n) == (n + 1) * (n + 1) - 1
  {
    var m, q := n - 1, n * n;
    assert m * n == q - n;
    assert CellStart(n, m, m) + 5 == 6 * q - 1;
    assert 6 * n * n == 6 * q;
    assert n * (n + 1) == q + n;
    assert (n + 1) * (n + 1) == q + 2 * n + 1;
  }

  /** `new Uint16Array(indices)` keeps the sphere's indices exactly when the
      vertex count `(n + 1)^2` is at most `65536`; `SPHERE_DIV = 6` gives 49. */
  lemma SphereIndicesFitUint16(n: nat)
    ensures ToUint16Array(SphereIndices(n)) == SphereIndices(n) <==>
      (n + 1) * (n + 1) <= Uint16Limit
  {
    Uint16Exact(SphereIndices(n));
    SphereIndexBounds(n);
    if n > 0 {
      SphereLastIndex(n);
    }
  }

  lemma SphereDivFitsUint16()
    ensures ToUint16Array(SphereIndices(SphereDiv)) == SphereIndices(SphereDiv)
  {
    SphereIndicesFitUint16(SphereDiv);
  }

  // ---------------------------------------------------------------------
  // Colours
  // ---------------------------------------------------------------------

  /** Passes of `for (i = 0; i < indices.length / 3; i++)`: the division is
      exact, so the loop runs `ceil(count / 3)` times. */
  function ColorPasses(indexCount: nat): nat
  {
    (indexCount + 2) / 3
  }

  /** The colour loop: each pass pushes the constant colour three times. */
  method SphereColorLoop(indexCount: nat) returns (colors: seq<real>)
    ensures colors == Flatten(Repeat(SphereColor, 3 * ColorPasses(indexCount)))
  {
    colors := [];
    var i := 0;
    while 3 * i < indexCount
      invariant 3 * i < indexCount + 3
      invariant colors == Flatten(Repeat(SphereColor, 3 * i))
    {
      var r, g, b := 1.0, 0.5, 0.1;
      ColorPass(SphereColor, 3 * i);
      colors := colors + [r, g, b, r, g, b, r, g, b];
      i := i + 1;
    }
    PassCount(indexCount, i);
  }

  lemma ColorPass(c: Vec3, m: nat)
    ensures Flatten(Repeat(c, m)) + [c.x, c.y, c.z, c.x, c.y, c.z, c.x, c.y, c.z]
         == Flatten(Repeat(c, m + 3))
  {
    assert Repeat(c, m + 3) == Repeat(c, m) + [c] + [c] + [c];
    FlattenSnoc(Repeat(c, m), c);
    FlattenSnoc(Repeat(c, m) + [c], c);
    FlattenSnoc(Repeat(c, m) + [c] + [c], c);
  }

  /** The loop stops at the first `i` with `3 i >= count`. */
  lemma PassCount(indexCount: nat, i: nat)
    requires indexCount <= 3 * i < indexCount + 3
    ensures i == ColorPasses(indexCount)
  {
    DivModUnique(indexCount + 2, 3, i, indexCount + 2 - 3 * i);
  }

  /** The sphere's colour array: one triple per emitted index, every one the
      constant colour. */
  function SphereColors(n: nat): (r: seq<real>)
    ensures |r| == 3 * |SphereIndices(n)|
    ensures VertexCount(r) == |SphereIndices(n)| == 6 * n * n
    ensures forall k :: 0 <= k < VertexCount(r) ==> VertexAt(r, k) == SphereColor
  {
    var c := |SphereIndices(n)|;
    IndexCountThirds(n);
    PassCount(c, 2 * n * n);
    RepeatAt(SphereColor, c);
    Flatten(Repeat(SphereColor, 3 * ColorPasses(c)))
  }

  /** The sphere emits a whole number of triangles: `6 n^2 = 3 (2 n^2)`. */
  lemma IndexCountThirds(n: nat)
    ensures |SphereIndices(n)| == 3 * (2 * n * n)
  {
    var q := n * n;
    assert 6 * n * n == 6 * q && 2 * n * n == 2 * q;
  }

  /** The colour array covers every vertex (and so every index) exactly when
      the grid has at least one division. */
  lemma SphereColorsCoverVertices(n: nat)
    ensures VertexCount(SphereColors(n)) >= (n + 1) * (n + 1) <==> n >= 1
  {
    SixSquaresCover(n);
  }

  lemma SixSquaresCover(n: nat)
    ensures 6 * n * n >= (n + 1) * (n + 1) <==> n >= 1
  {
    var q := n * n;
    assert 6 * n * n == 6 * q;
    assert (n + 1) * (n + 1) == q + 2 * n + 1;
    if n >= 1 {
      MulMono(1, n, n);
    }
  }
}
