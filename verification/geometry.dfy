/** Vectors and the flat attribute arrays that every mesh builder fills.

    The renderer hands WebGL flat arrays of numbers in which every three
    consecutive entries form one vertex attribute (`vertexAttribPointer` with
    size 3). This module fixes that layout once: `Flatten` writes a sequence of
    triples out flat, `VertexAt` reads triple `k` back, and `Unflatten` is the
    inverse of `Flatten`. `Repeat` and `Expand` model the `concat` loops that
    broadcast one colour or one normal over several vertices.
 */
module Geometry {

  datatype Vec3 = Vec3(x: real, y: real, z: real)

  /** Vertex `k` of a flat array: entries `3k`, `3k+1`, `3k+2`. */
  function VertexAt(s: seq<real>, k: nat): Vec3
    requires 3 * k + 2 < |s|
  {
    Vec3(s[3 * k], s[3 * k + 1], s[3 * k + 2])
  }

  /** Number of whole vertices a flat array holds (WebGL reads triples). */
  function VertexCount(s: seq<real>): nat
  {
    |s| / 3
  }

  /** Coordinate `i` (0, 1 or 2) of a vector. */
  function Coord(v: Vec3, i: nat): real
    requires i < 3
  {
    if i == 0 then v.x else if i == 1 then v.y else v.z
  }

  /** Writes triples out flat, the way `push(x, y, z)` and `concat([x, y, z])`
      do: entry `k` is coordinate `k % 3` of vector `k / 3`. */
  function Flatten(vs: seq<Vec3>): (r: seq<real>)
    ensures |r| == 3 * |vs|
  {
    seq(3 * |vs|, k requires 0 <= k < 3 * |vs| => Coord(vs[k / 3], k % 3))
  }

  /** Groups a flat array into triples, dropping an incomplete last triple. */
  function Unflatten(s: seq<real>): (vs: seq<Vec3>)
    ensures |vs| == VertexCount(s)
  {
    seq(|s| / 3, k requires 0 <= k < |s| / 3 => VertexAt(s, k))
  }

  /** Reading vertex `k` back from a flat array gives the vector written there. */
  lemma FlattenAt(vs: seq<Vec3>, k: nat)
    requires k < |vs|
    ensures VertexAt(Flatten(vs), k) == vs[k]
  {
    var r := Flatten(vs);
    assert r[3 * k] == Coord(vs[k], 0);
    assert r[3 * k + 1] == Coord(vs[k], 1);
    assert r[3 * k + 2] == Coord(vs[k], 2);
  }

  /** A flat array is the flattening of a sequence of triples when it has
      three entries per triple and reads back every triple in place. */
  lemma FlattenUnique(s: seq<real>, vs: seq<Vec3>)
    requires |s| == 3 * |vs|
    requires forall k :: 0 <= k < |vs| ==> VertexAt(s, k) == vs[k]
    ensures s == Flatten(vs)
  {
    var r := Flatten(vs);
    forall i | 0 <= i < |s|
      ensures s[i] == r[i]
    {
      var k := i / 3;
      assert VertexAt(s, k) == vs[k];
    }
  }

  lemma UnflattenFlatten(vs: seq<Vec3>)
    ensures Unflatten(Flatten(vs)) == vs
  {
    forall k | 0 <= k < |vs|
      ensures Unflatten(Flatten(vs))[k] == vs[k]
    {
      FlattenAt(vs, k);
    }
  }

  lemma FlattenUnflatten(s: seq<real>)
    requires |s| % 3 == 0
    ensures Flatten(Unflatten(s)) == s
  {
    var r := Flatten(Unflatten(s));
    forall k | 0 <= k < |s|
      ensures r[k] == s[k]
    {
      var q := k / 3;
      DivModUnique(k, 3, q, k % 3);
      assert 3 * q + 2 < |s|;
    }
  }

  /** Appending one vector appends its three coordinates. */
  lemma FlattenSnoc(vs: seq<Vec3>, v: Vec3)
    ensures Flatten(vs + [v]) == Flatten(vs) + [v.x, v.y, v.z]
  {
    var l, r := Flatten(vs + [v]), Flatten(vs) + [v.x, v.y, v.z];
    forall k | 0 <= k < |l|
      ensures l[k] == r[k]
    {
      if k >= 3 * |vs| {
        DivModUnique(k, 3, |vs|, k - 3 * |vs|);
      }
    }
  }

  /** `m` copies of one vector, as `concat(c)` repeated `m` times builds them. */
  function Repeat(v: Vec3, m: nat): (r: seq<Vec3>)
    ensures |r| == m
  {
    seq(m, _ => v)
  }

  /** Every vertex of `m` flattened copies of `v` reads back as `v`. */
  lemma RepeatAt(v: Vec3, m: nat)
    ensures VertexCount(Flatten(Repeat(v, m))) == m
    ensures forall k :: 0 <= k < m ==> VertexAt(Flatten(Repeat(v, m)), k) == v
  {
    forall k | 0 <= k < m
      ensures VertexAt(Flatten(Repeat(v, m)), k) == v
    {
      FlattenAt(Repeat(v, m), k);
    }
  }

  /** Every element of `vs` repeated `m` times in place, as
      `colors = colors.concat(c, c, c, c)` over the faces builds a per-vertex
      table from a per-face one. */
  function Expand(vs: seq<Vec3>, m: nat): (r: seq<Vec3>)
  {
    if vs == [] then [] else Repeat(vs[0], m) + Expand(vs[1..], m)
  }

  lemma {:induction false} ExpandLength(vs: seq<Vec3>, m: nat)
    ensures |Expand(vs, m)| == m * |vs|
  {
    if vs != [] {
      ExpandLength(vs[1..], m);
      assert m * |vs| == m + m * (|vs| - 1);
    }
  }

  /** Element `k` of an expansion is a copy of element `k / m` of the original. */
  lemma {:induction false} ExpandAt(vs: seq<Vec3>, m: nat, k: nat)
    requires m > 0 && k < m * |vs|
    ensures |Expand(vs, m)| == m * |vs|
    ensures Expand(vs, m)[k] == vs[k / m]
  {
    ExpandLength(vs, m);
    var head := Repeat(vs[0], m);
    var rest := Expand(vs[1..], m);
    assert Expand(vs, m) == head + rest;
    if k < m {
      DivModUnique(k, m, 0, k);
      assert Expand(vs, m)[k] == head[k] == vs[0];
    } else {
      ExpandLength(vs[1..], m);
      assert m * |vs| == m + m * (|vs| - 1);
      assert k - m < m * (|vs| - 1);
      ExpandAt(vs[1..], m, k - m);
      DivShift(k, m);
      var g := (k - m) / m;
      DivBelow(k - m, m, |vs| - 1);
      assert Expand(vs, m)[k] == rest[k - m] == vs[1..][g] == vs[g + 1];
    }
  }

  /** Flattening an expansion gives a per-vertex table in which vertex `k`
      carries value `k / m` of the per-group table. */
  lemma PerGroupAt(vs: seq<Vec3>, m: nat, k: nat)
    requires m > 0 && k < m * |vs|
    ensures k / m < |vs| && k < |Expand(vs, m)|
    ensures VertexAt(Flatten(Expand(vs, m)), k) == vs[k / m]
  {
    ExpandAt(vs, m, k);
    DivBelow(k, m, |vs|);
    FlattenAt(Expand(vs, m), k);
  }

  /** Removing one group of `m` moves the group number down by one. */
  lemma DivShift(k: int, m: int)
    requires m > 0 && k >= m
    ensures (k - m) / m + 1 == k / m
  {
    var q, r := (k - m) / m, (k - m) % m;
    assert k == (q + 1) * m + r;
    DivModUnique(k, m, q + 1, r);
  }

  /** Quotient and remainder are the only pair with `a == q * b + r`, `0 <= r < b`. */
  lemma DivModUnique(a: int, b: int, q: int, r: int)
    requires b > 0 && 0 <= r < b && a == q * b + r
    ensures a / b == q && a % b == r
  {
    var q', r' := a / b, a % b;
    assert (q - q') * b == r' - r;
    if q > q' {
      MulAtLeast(q - q', b);
    } else if q < q' {
      MulAtLeast(q' - q, b);
    }
  }

  /** A number below `c` groups of `m` lies in one of the first `c` groups. */
  lemma DivBelow(a: int, m: int, c: int)
    requires m > 0 && 0 <= a < m * c
    ensures 0 <= a / m < c
  {
  }

  lemma MulAtLeast(d: int, b: int)
    requires d >= 1 && b > 0
    ensures d * b >= b
  {
    assert d * b == (d - 1) * b + b;
  }

  /** The host's `Math.sin`, `Math.cos` and `Math.PI`, which the model does
      not compute: every fact about them a proof needs is stated where it is
      used. */
  datatype Trig = Trig(sin: real -> real, cos: real -> real, pi: real)

  function Scale(a: Vec3, f: real): Vec3
  {
    Vec3(a.x * f, a.y * f, a.z * f)
  }

  function Dot(a: Vec3, b: Vec3): real
  {
    a.x * b.x + a.y * b.y + a.z * b.z
  }
}
