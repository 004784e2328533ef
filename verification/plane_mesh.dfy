/** The flat tessellated plane that the demo renders: a centred grid of
    (divisions + 1) x (divisions + 1) points in the X/Z plane, emitted as a
    flat vertex buffer of (x, y, z) triples, and an index buffer holding two
    triangles per grid cell. The source's float arithmetic is modelled
    over `real`; the `int` arithmetic is modelled exactly, under a bound that
    rules out overflow. */
module PlaneMesh {

  /** Largest value of a C++ `int` (32 bits). */
  const INT_MAX: int := 0x7FFF_FFFF

  /** Number of grid points of a plane with `n` divisions per axis. */
  function VertexCount(n: nat): nat
  {
    (n + 1) * (n + 1)
  }

  /** What the generator demands of `divisions`: at least one division (the
      step sizes divide by it), and few enough that the largest `int` it
      computes, the vertex count, does not overflow. */
  predicate ValidDivisions(divisions: int)
  {
    1 <= divisions && (divisions + 1) * (divisions + 1) <= INT_MAX
  }

  // ---------------------------------------------------------------------------
  // Vertex buffer specification

  /** x coordinate of grid column `j`: the left edge plus `j` column steps. */
  function ColumnX(width: real, n: nat, j: nat): real
    requires n >= 1
  {
    -width / 2.0 + (j as real) * (width / (n as real))
  }

  /** z coordinate of grid row `i`: the near edge plus `i` row steps. */
  function RowZ(depth: real, n: nat, i: nat): real
    requires n >= 1
  {
    -depth / 2.0 + (i as real) * (depth / (n as real))
  }

  /** The (x, y, z) triple of grid point (row `i`, column `j`); y is always 0. */
  function GridPoint(width: real, depth: real, n: nat, i: nat, j: nat): seq<real>
    requires n >= 1
  {
    [ColumnX(width, n, j), 0.0, RowZ(depth, n, i)]
  }

  /** The first `m` points of row `i`, column by column. */
  function RowVertices(width: real, depth: real, n: nat, i: nat, m: nat): seq<real>
    requires n >= 1
  {
    if m == 0 then [] else RowVertices(width, depth, n, i, m - 1) + GridPoint(width, depth, n, i, m - 1)
  }

  /** The first `m` complete rows of the grid, row by row: row-major order,
      Z rows outside and X columns inside. */
  function PlaneVertices(width: real, depth: real, n: nat, m: nat): seq<real>
    requires n >= 1
  {
    if m == 0 then [] else PlaneVertices(width, depth, n, m - 1) + RowVertices(width, depth, n, m - 1, n + 1)
  }

  /** A flat buffer of whole triples whose middle (y) slot is always 0. */
  predicate FlatTriples(s: seq<real>)
  {
    |s| % 3 == 0 && forall p :: 0 <= p < |s| && p % 3 == 1 ==> s[p] == 0.0
  }

  // ---------------------------------------------------------------------------
  // Index buffer specification

  /** The six indices of grid cell (row `i`, column `j`): triangles
      (row1+j, row2+j, row1+j+1) and (row1+j+1, row2+j, row2+j+1), where row1
      and row2 are the first vertex numbers of grid rows i and i+1. */
  function CellIndices(n: nat, i: nat, j: nat): seq<int>
  {
    var row1 := i * (n + 1);
    var row2 := (i + 1) * (n + 1);
    [row1 + j, row2 + j, row1 + j + 1, row1 + j + 1, row2 + j, row2 + j + 1]
  }

  /** The indices of the first `m` cells of cell row `i`. */
  function RowIndices(n: nat, i: nat, m: nat): seq<int>
  {
    if m == 0 then [] else RowIndices(n, i, m - 1) + CellIndices(n, i, m - 1)
  }

  /** The indices of the first `m` complete cell rows, row by row. */
  function PlaneIndices(n: nat, m: nat): seq<int>
  {
    if m == 0 then [] else PlaneIndices(n, m - 1) + RowIndices(n, m - 1, n)
  }

  // ---------------------------------------------------------------------------
  // The generator

  /** generateFlatPlane: appends the plane's vertices and then its indices
      to the caller's buffers `vertices` and `indices`, and returns the
      extended buffers. Whatever the buffers held before is kept, and the new
      data follows it. */
  method GenerateFlatPlane(width: real, depth: real, divisions: int,
                           vertices: seq<real>, indices: seq<int>)
    returns (vertices': seq<real>, indices': seq<int>)
    requires ValidDivisions(divisions)
    ensures vertices' == vertices + PlaneVertices(width, depth, divisions, divisions + 1)
    ensures indices' == indices + PlaneIndices(divisions, divisions)
    ensures |vertices'| == |vertices| + 3 * VertexCount(divisions)
    ensures |indices'| == |indices| + 6 * divisions * divisions
    ensures FlatTriples(vertices'[|vertices|..])
    ensures forall p :: |indices| <= p < |indices'| ==> 0 <= indices'[p] < VertexCount(divisions)
    // indices count from 0: they name the new vertices only when the vertex
    // buffer starts empty
    ensures |vertices| == 0 ==> forall p :: |indices| <= p < |indices'| ==> 3 * indices'[p] + 3 <= |vertices'|
  {
    vertices' := AppendGridVertices(width, depth, divisions, vertices);
    indices' := AppendGridIndices(divisions, indices);
    PlaneVerticesLength(width, depth, divisions, divisions + 1);
    PlaneVerticesFlat(width, depth, divisions, divisions + 1);
    assert vertices'[|vertices|..] == PlaneVertices(width, depth, divisions, divisions + 1);
    PlaneIndicesLength(divisions, divisions);
    PlaneIndicesInRange(divisions, divisions);
    forall p | |indices| <= p < |indices'|
      ensures 0 <= indices'[p] < VertexCount(divisions)
    {
      assert indices'[p] == PlaneIndices(divisions, divisions)[p - |indices|];
    }
  }

  /** The vertex loop: one (x, 0, z) triple per grid point, Z rows outside,
      X columns inside. */
  method AppendGridVertices(width: real, depth: real, divisions: int, vertices: seq<real>)
    returns (vertices': seq<real>)
    requires ValidDivisions(divisions)
    ensures vertices' == vertices + PlaneVertices(width, depth, divisions, divisions + 1)
  {
    var n: nat := divisions;
    var stepX := width / (n as real);
    var stepZ := depth / (n as real);
    vertices' := vertices;
    var i: nat := 0;
    while i <= n
      invariant i <= n + 1
      invariant vertices' == vertices + PlaneVertices(width, depth, n, i)
    {
      var j: nat := 0;
      while j <= n
        invariant j <= n + 1
        invariant vertices' == vertices + PlaneVertices(width, depth, n, i) + RowVertices(width, depth, n, i, j)
      {
        var x := -width / 2.0 + (j as real) * stepX;
        var z := -depth / 2.0 + (i as real) * stepZ;
        assert x == ColumnX(width, n, j) && z == RowZ(depth, n, i);
        // the three push_back calls: x, then y = 0, then z
        vertices' := vertices' + [x, 0.0, z];
        j := j + 1;
      }
      i := i + 1;
    }
  }

  /** The index loop: six indices, two triangles, per grid cell, cell rows
      outside, cells of a row inside. */
  method AppendGridIndices(divisions: int, indices: seq<int>) returns (indices': seq<int>)
    requires ValidDivisions(divisions)
    ensures indices' == indices + PlaneIndices(divisions, divisions)
  {
    var n: nat := divisions;
    indices' := indices;
    var i: nat := 0;
    while i < n
      invariant i <= n
      invariant indices' == indices + PlaneIndices(n, i)
    {
      var j: nat := 0;
      while j < n
        invariant j <= n
        invariant indices' == indices + PlaneIndices(n, i) + RowIndices(n, i, j)
      {
        var row1 := i * (n + 1);
        var row2 := (i + 1) * (n + 1);
        assert CellIndices(n, i, j) == [row1 + j, row2 + j, row1 + j + 1, row1 + j + 1, row2 + j, row2 + j + 1];
        // the six push_back calls: triangles (row1+j, row2+j, row1+j+1)
        // and (row1+j+1, row2+j, row2+j+1)
        indices' := indices' + [row1 + j, row2 + j, row1 + j + 1, row1 + j + 1, row2 + j, row2 + j + 1];
        j := j + 1;
      }
      i := i + 1;
    }
  }

  // ---------------------------------------------------------------------------
  // Slices of concatenations

  lemma SliceOfConcatLeft<T>(a: seq<T>, b: seq<T>, lo: nat, hi: nat)
    requires lo <= hi <= |a|
    ensures (a + b)[lo..hi] == a[lo..hi]
  {
  }

  lemma SliceOfConcatRight<T>(a: seq<T>, b: seq<T>, lo: nat, hi: nat)
    requires |a| <= lo <= hi <= |a| + |b|
    ensures (a + b)[lo..hi] == b[lo - |a| .. hi - |a|]
  {
  }

  // ---------------------------------------------------------------------------
  // Properties of the vertex buffer

  lemma {:induction false} RowVerticesLength(width: real, depth: real, n: nat, i: nat, m: nat)
    requires n >= 1
    ensures |RowVertices(width, depth, n, i, m)| == 3 * m
  {
    if m > 0 {
      RowVerticesLength(width, depth, n, i, m - 1);
    }
  }

  /** `m` rows hold `m * (n + 1)` triples; the whole grid, `m = n + 1`, holds
      exactly `VertexCount(n)` of them. */
  lemma {:induction false} PlaneVerticesLength(width: real, depth: real, n: nat, m: nat)
    requires n >= 1
    ensures |PlaneVertices(width, depth, n, m)| == 3 * m * (n + 1)
    ensures m == n + 1 ==> |PlaneVertices(width, depth, n, m)| == 3 * VertexCount(n)
  {
    if m > 0 {
      PlaneVerticesLength(width, depth, n, m - 1);
      RowVerticesLength(width, depth, n, m - 1, n + 1);
      assert 3 * (m - 1) * (n + 1) + 3 * (n + 1) == 3 * m * (n + 1);
    }
  }

  /** Point `j` of row `i` occupies the three slots starting at `3 * j`. */
  lemma {:induction false} RowVertexAt(width: real, depth: real, n: nat, i: nat, m: nat, j: nat)
    requires n >= 1 && j < m
    ensures 3 * j + 3 <= |RowVertices(width, depth, n, i, m)|
    ensures RowVertices(width, depth, n, i, m)[3 * j .. 3 * j + 3] == GridPoint(width, depth, n, i, j)
  {
    var a, b := RowVertices(width, depth, n, i, m - 1), GridPoint(width, depth, n, i, m - 1);
    RowVerticesLength(width, depth, n, i, m - 1);
    if j < m - 1 {
      RowVertexAt(width, depth, n, i, m - 1, j);
      SliceOfConcatLeft(a, b, 3 * j, 3 * j + 3);
    } else {
      SliceOfConcatRight(a, b, 3 * j, 3 * j + 3);
    }
  }

  /** Within the first `m` rows, point `j` of row `i` follows the first `i`
      complete rows. */
  lemma {:induction false} PlaneVertexAfterRows(width: real, depth: real, n: nat, m: nat, i: nat, j: nat)
    requires n >= 1 && i < m && j <= n
    ensures |PlaneVertices(width, depth, n, i)| + 3 * j + 3 <= |PlaneVertices(width, depth, n, m)|
    ensures PlaneVertices(width, depth, n, m)[|PlaneVertices(width, depth, n, i)| + 3 * j ..
                                             |PlaneVertices(width, depth, n, i)| + 3 * j + 3]
            == GridPoint(width, depth, n, i, j)
  {
    var a, b := PlaneVertices(width, depth, n, m - 1), RowVertices(width, depth, n, m - 1, n + 1);
    var lo := |PlaneVertices(width, depth, n, i)| + 3 * j;
    RowVerticesLength(width, depth, n, m - 1, n + 1);
    if i < m - 1 {
      PlaneVertexAfterRows(width, depth, n, m - 1, i, j);
      SliceOfConcatLeft(a, b, lo, lo + 3);
    } else {
      RowVertexAt(width, depth, n, i, n + 1, j);
      SliceOfConcatRight(a, b, lo, lo + 3);
    }
  }

  /** Grid point (i, j) is vertex number `k = i * (n + 1) + j`: slots 3k,
      3k + 1 and 3k + 2 of the vertex buffer hold its x, its y (0) and its z. */
  lemma PlaneVertexAt(width: real, depth: real, n: nat, m: nat, i: nat, j: nat)
    requires n >= 1 && i < m && j <= n
    ensures 3 * (i * (n + 1) + j) + 3 <= |PlaneVertices(width, depth, n, m)|
    ensures PlaneVertices(width, depth, n, m)[3 * (i * (n + 1) + j) .. 3 * (i * (n + 1) + j) + 3]
            == [ColumnX(width, n, j), 0.0, RowZ(depth, n, i)]
  {
    PlaneVertexAfterRows(width, depth, n, m, i, j);
    PlaneVerticesLength(width, depth, n, i);
    VertexOffset(n, i, j);
  }

  lemma VertexOffset(n: nat, i: nat, j: nat)
    ensures 3 * (i * (n + 1) + j) == 3 * i * (n + 1) + 3 * j
  {
  }

  lemma FlatTriplesConcat(s: seq<real>, t: seq<real>)
    requires FlatTriples(s) && FlatTriples(t)
    ensures FlatTriples(s + t)
  {
    forall p | 0 <= p < |s + t| && p % 3 == 1
      ensures (s + t)[p] == 0.0
    {
      if p >= |s| {
        assert (p - |s|) % 3 == 1;
      }
    }
  }

  lemma {:induction false} RowVerticesFlat(width: real, depth: real, n: nat, i: nat, m: nat)
    requires n >= 1
    ensures FlatTriples(RowVertices(width, depth, n, i, m))
  {
    if m > 0 {
      RowVerticesFlat(width, depth, n, i, m - 1);
      FlatTriplesConcat(RowVertices(width, depth, n, i, m - 1), GridPoint(width, depth, n, i, m - 1));
    }
  }

  /** The vertex buffer consists of whole (x, y, z) triples and every y
      (slot 3k + 1) is 0: the plane is flat. */
  lemma {:induction false} PlaneVerticesFlat(width: real, depth: real, n: nat, m: nat)
    requires n >= 1
    ensures FlatTriples(PlaneVertices(width, depth, n, m))
  {
    if m > 0 {
      PlaneVerticesFlat(width, depth, n, m - 1);
      RowVerticesFlat(width, depth, n, m - 1, n + 1);
      FlatTriplesConcat(PlaneVertices(width, depth, n, m - 1), RowVertices(width, depth, n, m - 1, n + 1));
    }
  }

  /** The grid is centred and spans exactly [-width/2, width/2]: column 0 is
      the left edge, column n the right edge, and (for a non-negative width)
      every column lies between them. */
  lemma ColumnXSpan(width: real, n: nat, j: nat)
    requires n >= 1 && j <= n
    ensures ColumnX(width, n, 0) == -width / 2.0
    ensures ColumnX(width, n, n) == width / 2.0
    ensures width >= 0.0 ==> -width / 2.0 <= ColumnX(width, n, j) <= width / 2.0
  {
    var step := width / (n as real);
    assert (n as real) * step == width;
    if width >= 0.0 {
      assert step >= 0.0;
      assert (j as real) * step <= (n as real) * step;
    }
  }

  /** The same for the z extent [-depth/2, depth/2]. */
  lemma RowZSpan(depth: real, n: nat, i: nat)
    requires n >= 1 && i <= n
    ensures RowZ(depth, n, 0) == -depth / 2.0
    ensures RowZ(depth, n, n) == depth / 2.0
    ensures depth >= 0.0 ==> -depth / 2.0 <= RowZ(depth, n, i) <= depth / 2.0
  {
    var step := depth / (n as real);
    assert (n as real) * step == depth;
    if depth >= 0.0 {
      assert step >= 0.0;
      assert (i as real) * step <= (n as real) * step;
    }
  }

  // ---------------------------------------------------------------------------
  // Properties of the index buffer

  lemma {:induction false} RowIndicesLength(n: nat, i: nat, m: nat)
    ensures |RowIndices(n, i, m)| == 6 * m
  {
    if m > 0 {
      RowIndicesLength(n, i, m - 1);
    }
  }

  /** `m` cell rows hold `6 * n * m` indices; the whole grid, `6 * n * n`. */
  lemma {:induction false} PlaneIndicesLength(n: nat, m: nat)
    ensures |PlaneIndices(n, m)| == 6 * n * m
  {
    if m > 0 {
      PlaneIndicesLength(n, m - 1);
      RowIndicesLength(n, m - 1, n);
      assert 6 * n * (m - 1) + 6 * n == 6 * n * m;
    }
  }

  /** Every index of a cell row above the last grid row names an emitted
      vertex: it lies in [0, VertexCount(n)). */
  lemma {:induction false} RowIndicesInRange(n: nat, i: nat, m: nat)
    requires i < n && m <= n
    ensures forall p :: 0 <= p < |RowIndices(n, i, m)| ==> 0 <= RowIndices(n, i, m)[p] < VertexCount(n)
  {
    if m > 0 {
      RowIndicesInRange(n, i, m - 1);
      // The largest index of cell (i, m - 1) is row2 + m <= n * (n + 1) + n.
      assert (i + 1) * (n + 1) <= n * (n + 1);
      assert (i + 1) * (n + 1) + m < VertexCount(n);
      var a, b := RowIndices(n, i, m - 1), CellIndices(n, i, m - 1);
      forall p | 0 <= p < |a + b|
        ensures 0 <= (a + b)[p] < VertexCount(n)
      {
        if p >= |a| {
          assert (a + b)[p] == b[p - |a|];
        }
      }
    }
  }

  /** Every index of the first `m <= n` cell rows lies in [0, VertexCount(n)):
      it names one of the vertices the generator emits, and it fits the
      unsigned index type. */
  lemma {:induction false} PlaneIndicesInRange(n: nat, m: nat)
    requires m <= n
    ensures forall p :: 0 <= p < |PlaneIndices(n, m)| ==> 0 <= PlaneIndices(n, m)[p] < VertexCount(n)
  {
    if m > 0 {
      PlaneIndicesInRange(n, m - 1);
      RowIndicesInRange(n, m - 1, n);
      var a, b := PlaneIndices(n, m - 1), RowIndices(n, m - 1, n);
      forall p | 0 <= p < |a + b|
        ensures 0 <= (a + b)[p] < VertexCount(n)
      {
        if p >= |a| {
          assert (a + b)[p] == b[p - |a|];
        }
      }
    }
  }

  /** Cell `j` of a cell row occupies the six slots starting at `6 * j`. */
  lemma {:induction false} RowCellAt(n: nat, i: nat, m: nat, j: nat)
    requires j < m
    ensures 6 * j + 6 <= |RowIndices(n, i, m)|
    ensures RowIndices(n, i, m)[6 * j .. 6 * j + 6] == CellIndices(n, i, j)
  {
    var a, b := RowIndices(n, i, m - 1), CellIndices(n, i, m - 1);
    RowIndicesLength(n, i, m - 1);
    if j < m - 1 {
      RowCellAt(n, i, m - 1, j);
      SliceOfConcatLeft(a, b, 6 * j, 6 * j + 6);
    } else {
      SliceOfConcatRight(a, b, 6 * j, 6 * j + 6);
    }
  }

  /** Within the first `m` cell rows, cell `j` of row `i` follows the first
      `i` complete cell rows. */
  lemma {:induction false} PlaneCellAfterRows(n: nat, m: nat, i: nat, j: nat)
    requires i < m && j < n
    ensures |PlaneIndices(n, i)| + 6 * j + 6 <= |PlaneIndices(n, m)|
    ensures PlaneIndices(n, m)[|PlaneIndices(n, i)| + 6 * j .. |PlaneIndices(n, i)| + 6 * j + 6]
            == CellIndices(n, i, j)
  {
    var a, b := PlaneIndices(n, m - 1), RowIndices(n, m - 1, n);
    var lo := |PlaneIndices(n, i)| + 6 * j;
    RowIndicesLength(n, m - 1, n);
    if i < m - 1 {
      PlaneCellAfterRows(n, m - 1, i, j);
      SliceOfConcatLeft(a, b, lo, lo + 6);
    } else {
      RowCellAt(n, i, n, j);
      SliceOfConcatRight(a, b, lo, lo + 6);
    }
  }

  /** Cell (i, j) occupies the six slots starting at `6 * (i * n + j)` of the
      index buffer, in the order row1+j, row2+j, row1+j+1, row1+j+1, row2+j,
      row2+j+1. */
  lemma PlaneCellAt(n: nat, m: nat, i: nat, j: nat)
    requires i < m && j < n
    ensures 6 * (i * n + j) + 6 <= |PlaneIndices(n, m)|
    ensures PlaneIndices(n, m)[6 * (i * n + j) .. 6 * (i * n + j) + 6] == CellIndices(n, i, j)
  {
    PlaneCellAfterRows(n, m, i, j);
    PlaneIndicesLength(n, i);
    CellOffset(n, i, j);
  }

  lemma CellOffset(n: nat, i: nat, j: nat)
    ensures 6 * (i * n + j) == 6 * n * i + 6 * j
  {
  }

  // ---------------------------------------------------------------------------
  // Geometry of one cell

  /** Row and column of vertex number `k` in a grid with `n + 1` points per
      row: whole rows are counted off the front of `k`. */
  function GridRow(n: nat, k: nat): nat
  {
    if k <= n then 0 else 1 + GridRow(n, k - (n + 1))
  }

  function GridColumn(n: nat, k: nat): nat
  {
    if k <= n then k else GridColumn(n, k - (n + 1))
  }

  /** Twice the signed area of triangle (a, b, c), in grid units (column, row). */
  function Orientation(n: nat, a: nat, b: nat, c: nat): int
  {
    (GridColumn(n, b) - GridColumn(n, a)) * (GridRow(n, c) - GridRow(n, a))
    - (GridRow(n, b) - GridRow(n, a)) * (GridColumn(n, c) - GridColumn(n, a))
  }

  /** Vertex number `i * (n + 1) + j` is grid point (row i, column j): the
      numbering the vertex loop produces. */
  lemma {:induction false} GridCoordinates(n: nat, i: nat, j: nat)
    requires j <= n
    ensures GridRow(n, i * (n + 1) + j) == i
    ensures GridColumn(n, i * (n + 1) + j) == j
  {
    if i > 0 {
      assert i * (n + 1) + j - (n + 1) == (i - 1) * (n + 1) + j;
      GridCoordinates(n, i - 1, j);
    }
  }

  /** The two triangles of a cell share the diagonal edge (row1+j+1, row2+j),
      traversed in opposite directions, and both have the same non-zero
      orientation: the cell is split into two consistently wound,
      non-degenerate triangles. */
  lemma CellWinding(n: nat, i: nat, j: nat)
    requires i < n && j < n
    ensures var c := CellIndices(n, i, j);
            c[1] == c[4] && c[2] == c[3] &&
            Orientation(n, c[0], c[1], c[2]) == -1 &&
            Orientation(n, c[3], c[4], c[5]) == -1
  {
    var c := CellIndices(n, i, j);
    GridCoordinates(n, i, j);
    GridCoordinates(n, i, j + 1);
    GridCoordinates(n, i + 1, j);
    GridCoordinates(n, i + 1, j + 1);
    assert GridRow(n, c[0]) == i && GridColumn(n, c[0]) == j;
    assert GridRow(n, c[1]) == i + 1 && GridColumn(n, c[1]) == j;
    assert GridRow(n, c[2]) == i && GridColumn(n, c[2]) == j + 1;
    assert GridRow(n, c[5]) == i + 1 && GridColumn(n, c[5]) == j + 1;
  }

  /** The smallest plane, one division over a 2 x 2 square: four corner
      vertices (-1, 0, -1), (1, 0, -1), (-1, 0, 1), (1, 0, 1) and one cell
      split into triangles (0, 2, 1) and (1, 2, 3). */
  lemma SingleCellPlane()
    ensures PlaneVertices(2.0, 2.0, 1, 2)
            == [-1.0, 0.0, -1.0, 1.0, 0.0, -1.0, -1.0, 0.0, 1.0, 1.0, 0.0, 1.0]
    ensures PlaneIndices(1, 1) == [0, 2, 1, 1, 2, 3]
  {
    assert RowVertices(2.0, 2.0, 1, 0, 2) == [-1.0, 0.0, -1.0, 1.0, 0.0, -1.0];
    assert RowVertices(2.0, 2.0, 1, 1, 2) == [-1.0, 0.0, 1.0, 1.0, 0.0, 1.0];
  }
}
