/** The fallback sphere that `ply_cell_renderer.py` and
    `pcr_camera_simulation.py` build when a PLY file cannot be read: one vertex
    per latitude row and longitude column, and a triangle list over the grid.
    Only the index arithmetic and the vertex count are modelled; the vertex
    coordinates are cosines and sines of the grid angles. */
module SphereMesh {
  import opened Geometry

  /** The colour every fallback vertex gets. */
  const VertexColor := Rgb(0.2, 0.8, 0.2)

  /** The triangles of grid cell `(i, j)`: `first, second, third` unless it is
      the first row, `second, fourth, third` unless it is the last row. */
  function CellIndices(i: nat, j: nat, s: nat): seq<nat> {
    CellFrom(i * s + j, i, s)
  }

  /** The triangles of the cell of row `i` whose first vertex is `first`. */
  function CellFrom(first: nat, i: nat, s: nat): seq<nat> {
    var second := first + s;
    var third := first + 1;
    var fourth := second + 1;
    (if i != 0 then [first, second, third] else []) +
    (if i != s - 1 then [second, fourth, third] else [])
  }

  /** How many indices one cell of row `i` contributes. */
  function CellCount(i: nat, s: nat): nat {
    (if i != 0 then 3 else 0) + (if i != s - 1 then 3 else 0)
  }

  /** The first `j` cells of row `i`. */
  function Row(i: nat, j: nat, s: nat): seq<nat> {
    if j == 0 then [] else Row(i, j - 1, s) + CellIndices(i, j - 1, s)
  }

  /** The first `r` rows. */
  function Rows(r: nat, s: nat): seq<nat> {
    if r == 0 then [] else Rows(r - 1, s) + Row(r - 1, s, s)
  }

  /** The whole index list for `s` segments. */
  function SphereIndices(s: nat): seq<nat> {
    Rows(s, s)
  }

  lemma MulLe(a: int, b: int, c: int)
    requires a <= b && 0 <= c
    ensures a * c <= b * c
  {
    assert b * c - a * c == (b - a) * c;
  }

  /** Every index of a cell inside the grid names one of the `(s + 1) * s` vertices. */
  lemma CellIndicesInRange(i: nat, j: nat, s: nat)
    requires i < s && j < s
    ensures forall x :: x in CellIndices(i, j, s) ==> x < (s + 1) * s
  {
    assert (s + 1) * s == s * s + s;
    MulLe(i, s - 1, s);
    assert (s - 1) * s == s * s - s;
    if i + 2 <= s {
      MulLe(i, s - 2, s);
      assert (s - 2) * s == s * s - 2 * s;
    }
  }

  lemma {:induction false} RowInRange(i: nat, j: nat, s: nat)
    requires i < s && j <= s
    ensures forall x :: x in Row(i, j, s) ==> x < (s + 1) * s
    ensures |Row(i, j, s)| == j * CellCount(i, s)
  {
    if j > 0 {
      RowInRange(i, j - 1, s);
      CellIndicesInRange(i, j - 1, s);
      assert j * CellCount(i, s) == (j - 1) * CellCount(i, s) + CellCount(i, s);
    }
  }

  /** Every index of the first `r` rows names an existing vertex. */
  lemma {:induction false} RowsInRange(r: nat, s: nat)
    requires r <= s
    ensures forall x :: x in Rows(r, s) ==> x < (s + 1) * s
  {
    if r > 0 {
      RowsInRange(r - 1, s);
      RowInRange(r - 1, s, s);
    }
  }

  lemma Distrib(s: int, a: int, b: int)
    ensures s * a + s * b == s * (a + b)
  {
  }

  /** After `r` full rows there are `s * (6r - 3)` indices, three fewer per
      column once the last row is included. */
  lemma {:induction false} RowsLength(r: nat, s: nat)
    requires 1 <= r <= s
    ensures |Rows(r, s)| == s * (6 * r - 3 - (if r == s then 3 else 0))
  {
    RowInRange(r - 1, s, s);
    assert |Rows(r, s)| == |Rows(r - 1, s)| + s * CellCount(r - 1, s);
    if r > 1 {
      RowsLength(r - 1, s);
      Distrib(s, 6 * (r - 1) - 3, CellCount(r - 1, s));
    }
  }

  /** Every index names one of the `(s + 1) * s` vertices. */
  lemma SphereIndicesInRange(s: nat)
    ensures forall x :: x in SphereIndices(s) ==> x < (s + 1) * s
  {
    RowsInRange(s, s);
  }

  /** The index list has `6 * s * (s - 1)` entries: `2 * s * (s - 1)` triangles. */
  lemma SphereIndicesLength(s: nat)
    ensures |SphereIndices(s)| == 6 * s * (s - 1)
  {
    if s >= 1 {
      RowsLength(s, s);
      assert s * (6 * s - 6) == 6 * s * (s - 1);
    }
  }

  /** `colors` and `indices` are the vertex colours and the triangle list of
      a sphere of `s` segments. */
  ghost predicate SphereGeometry(s: nat, colors: seq<Rgb>, indices: seq<nat>) {
    && |colors| == (s + 1) * s
    && (forall k :: 0 <= k < |colors| ==> colors[k] == VertexColor)
    && indices == SphereIndices(s)
  }

  /** A sphere of `s` segments has `(s + 1) * s` vertices and
      `6 * s * (s - 1)` indices, each naming a vertex; the default 16 segments
      give 272 and 1440. */
  lemma SphereGeometryCounts(s: nat, colors: seq<Rgb>, indices: seq<nat>)
    requires SphereGeometry(s, colors, indices)
    ensures |colors| == (s + 1) * s && |indices| == 6 * s * (s - 1)
    ensures forall x :: x in indices ==> x < |colors|
  {
    SphereIndicesLength(s);
    SphereIndicesInRange(s);
  }

  /** `create_default_geometry`: the vertex loop, then the triangle loop. */
  method BuildSphere(s: nat) returns (colors: seq<Rgb>, indices: seq<nat>)
    ensures SphereGeometry(s, colors, indices)
  {
    colors := VertexColors(s);
    indices := TriangleIndices(s);
  }

  /** The vertex loop: one colour per vertex over `s + 1` rows of `s` columns. */
  method VertexColors(s: nat) returns (colors: seq<Rgb>)
    ensures |colors| == (s + 1) * s
    ensures forall k :: 0 <= k < |colors| ==> colors[k] == VertexColor
  {
    colors := [];
    var i := 0;
    while i < s + 1
      invariant 0 <= i <= s + 1
      invariant |colors| == i * s
      invariant forall k :: 0 <= k < |colors| ==> colors[k] == VertexColor
    {
      var j := 0;
      ghost var rowStart := |colors|;
      while j < s
        invariant 0 <= j <= s
        invariant |colors| == rowStart + j
        invariant forall k :: 0 <= k < |colors| ==> colors[k] == VertexColor
      {
        colors := colors + [VertexColor];
        j := j + 1;
      }
      Distrib(s, i, 1);
      i := i + 1;
    }
    assert |colors| == (s + 1) * s;
  }

  /** The triangle loop over every grid cell, row by row. */
  method TriangleIndices(s: nat) returns (indices: seq<nat>)
    ensures indices == SphereIndices(s)
  {
    indices := [];
    var i := 0;
    while i < s
      invariant 0 <= i <= s
      invariant indices == Rows(i, s)
    {
      var row := RowIndices(i, s);
      indices := indices + row;
      i := i + 1;
    }
  }

  /** The inner loop: the triangles of the cells of row `i`, left to right. */
  method RowIndices(i: nat, s: nat) returns (row: seq<nat>)
    ensures row == Row(i, s, s)
  {
    row := [];
    var rowStart: nat := i * s;
    var j := 0;
    while j < s
      invariant 0 <= j <= s
      invariant row == Row(i, j, s)
    {
      var first: nat := rowStart + j;
      var second: nat := first + s;
      var third: nat := first + 1;
      var fourth: nat := second + 1;
      assert CellIndices(i, j, s) == CellFrom(first, i, s);
      if i != 0 {
        row := row + [first, second, third];
      }
      if i != s - 1 {
        row := row + [second, fourth, third];
      }
      j := j + 1;
    }
  }
}
