/** The water grid's index topology, built once at scene initialization: an L x L table of vertex
    indices in row-major order, then two counter-clockwise triangles per grid cell appended to the
    mesh's drawFaces. */
module WaterGrid {
  import opened Sequences

  /** GRID_LENGTH of initScene: vertices per side of the water grid. */
  const GridLength: nat := 513
  /** Indices are GLuint: the grid must have at most 2^32 vertices for none of them to wrap. */
  const GLuintRange: nat := 0x1_0000_0000

  /** The side lengths the index loops handle: at least one vertex per side (GRID_LENGTH - 1 is an
      unsigned subtraction) and every vertex index representable as a GLuint. */
  predicate ValidSide(L: nat) {
    1 <= L && L * L <= GLuintRange
  }

  /** The mesh object that receives the topology (only the parts initScene sets are modelled). */
  class MeshObject {
    var drawFaces: seq<nat>
    var textureId: nat

    constructor ()
      ensures drawFaces == [] && textureId == 0
    {
      drawFaces := [];
      textureId := 0;
    }
  }

  /** The index of the vertex in row `row`, column `col` of the row-major layout. */
  function VertexIndex(L: nat, row: nat, col: nat): nat {
    row * L + col
  }

  /** The six indices emitted for the cell whose bottom-left corner is (row, col): the triangles
      (r,c)-(r+1,c+1)-(r+1,c) and (r,c)-(r,c+1)-(r+1,c+1). */
  function CellFaces(L: nat, row: nat, col: nat): (faces: seq<nat>)
    ensures |faces| == 6
    ensures faces[0] == faces[3] && faces[1] == faces[5]
  {
    [VertexIndex(L, row, col), VertexIndex(L, row + 1, col + 1), VertexIndex(L, row + 1, col),
     VertexIndex(L, row, col), VertexIndex(L, row, col + 1), VertexIndex(L, row + 1, col + 1)]
  }

  /** The two triangles cover the cell's four corners, sharing the diagonal from (row, col) to
      (row + 1, col + 1): its ends are used twice, the other two corners once. */
  lemma CellCorners(L: nat, row: nat, col: nat)
    ensures multiset(CellFaces(L, row, col)) ==
            multiset{VertexIndex(L, row, col), VertexIndex(L, row, col),
                     VertexIndex(L, row + 1, col + 1), VertexIndex(L, row + 1, col + 1),
                     VertexIndex(L, row, col + 1), VertexIndex(L, row + 1, col)}
  {
  }

  /** The indices emitted for cells (row, 0) .. (row, cols - 1), in that order. */
  function RowFaces(L: nat, row: nat, cols: nat): seq<nat> {
    if cols == 0 then [] else RowFaces(L, row, cols - 1) + CellFaces(L, row, cols - 1)
  }

  /** The indices emitted for rows 0 .. rows - 1, each of L - 1 cells, in that order. */
  function GridFaces(L: nat, rows: nat): seq<nat>
    requires 1 <= L
  {
    if rows == 0 then [] else GridFaces(L, rows - 1) + RowFaces(L, rows - 1, L - 1)
  }

  /** The whole topology of an L x L grid: all (L - 1) x (L - 1) cells, row by row. */
  function Topology(L: nat): (faces: seq<nat>)
    requires 1 <= L
    ensures |faces| == 6 * ((L - 1) * (L - 1))
  {
    GridFacesLength(L, L - 1);
    GridFaces(L, L - 1)
  }

  // ---------------------------------------------------------------------------------------------
  // Length and layout

  lemma {:induction false} RowFacesLength(L: nat, row: nat, cols: nat)
    ensures |RowFaces(L, row, cols)| == 6 * cols
  {
    if cols > 0 {
      RowFacesLength(L, row, cols - 1);
    }
  }

  lemma {:induction false} GridFacesLength(L: nat, rows: nat)
    requires 1 <= L
    ensures |GridFaces(L, rows)| == 6 * ((L - 1) * rows)
  {
    if rows > 0 {
      GridFacesLength(L, rows - 1);
      RowFacesLength(L, rows - 1, L - 1);
      assert (L - 1) * rows == (L - 1) * (rows - 1) + (L - 1);
    }
  }

  /** The topology has exactly 6 (L - 1)^2 entries; a single-vertex grid has none. */
  lemma TopologyLength(L: nat)
    requires 1 <= L
    ensures |Topology(L)| == 6 * ((L - 1) * (L - 1))
    ensures L == 1 ==> Topology(L) == []
  {
    GridFacesLength(L, L - 1);
  }

  lemma {:induction false} RowFacesAt(L: nat, row: nat, cols: nat, col: nat, j: nat)
    requires col < cols && j < 6
    ensures 6 * col + j < |RowFaces(L, row, cols)|
    ensures RowFaces(L, row, cols)[6 * col + j] == CellFaces(L, row, col)[j]
  {
    RowFacesLength(L, row, cols - 1);
    if col < cols - 1 {
      RowFacesAt(L, row, cols - 1, col, j);
    }
  }

  lemma GridFacesAt(L: nat, rows: nat, row: nat, col: nat, j: nat)
    requires 1 <= L && row < rows && col < L - 1 && j < 6
    ensures 6 * ((L - 1) * row + col) + j < |GridFaces(L, rows)|
    ensures GridFaces(L, rows)[6 * ((L - 1) * row + col) + j] == CellFaces(L, row, col)[j]
  {
    GridFacesLastRow(L, row, col, j);
    GridFacesKeepPrefix(L, rows, row + 1, 6 * ((L - 1) * row + col) + j);
  }

  /** Appending rows leaves the entries already emitted in place. */
  lemma {:induction false} GridFacesKeepPrefix(L: nat, rows: nat, n: nat, k: nat)
    requires 1 <= L && n <= rows && k < |GridFaces(L, n)|
    ensures k < |GridFaces(L, rows)| && GridFaces(L, rows)[k] == GridFaces(L, n)[k]
    decreases rows
  {
    if n < rows {
      GridFacesKeepPrefix(L, rows - 1, n, k);
      var prefix, last := GridFaces(L, rows - 1), RowFaces(L, rows - 1, L - 1);
      assert GridFaces(L, rows) == prefix + last;
      ConcatLeft(prefix, last, k);
    }
  }

  /** The cells of the last row appended come right after all earlier rows. */
  lemma GridFacesLastRow(L: nat, row: nat, col: nat, j: nat)
    requires 1 <= L && col < L - 1 && j < 6
    ensures 6 * ((L - 1) * row + col) + j < |GridFaces(L, row + 1)|
    ensures GridFaces(L, row + 1)[6 * ((L - 1) * row + col) + j] == CellFaces(L, row, col)[j]
  {
    var prefix, last := GridFaces(L, row), RowFaces(L, row, L - 1);
    assert GridFaces(L, row + 1) == prefix + last;
    GridFacesLength(L, row);
    RowFacesAt(L, row, L - 1, col, j);
    ConcatRight(prefix, last, 6 * ((L - 1) * row), 6 * col + j);
  }

  lemma ConcatLeft(a: seq<nat>, b: seq<nat>, k: nat)
    requires k < |a|
    ensures (a + b)[k] == a[k]
  {
  }

  lemma ConcatRight(a: seq<nat>, b: seq<nat>, n: nat, k: nat)
    requires n == |a| && k < |b|
    ensures (a + b)[n + k] == b[k]
  {
  }

  /** Cells are visited row-major and each contributes six consecutive entries: entry
      6 ((L - 1) row + col) + j is the j-th index of cell (row, col). */
  lemma TopologyAt(L: nat, row: nat, col: nat, j: nat)
    requires 1 <= L && row < L - 1 && col < L - 1 && j < 6
    ensures var k := 6 * ((L - 1) * row + col) + j;
            k < |Topology(L)| && Topology(L)[k] == CellFaces(L, row, col)[j]
  {
    GridFacesAt(L, L - 1, row, col, j);
  }

  // ---------------------------------------------------------------------------------------------
  // Bounds

  predicate AllBelow(s: seq<nat>, n: nat) {
    forall k :: 0 <= k < |s| ==> s[k] < n
  }

  lemma CellFacesBounded(L: nat, row: nat, col: nat)
    requires row < L - 1 && col < L - 1
    ensures AllBelow(CellFaces(L, row, col), L * L)
  {
    assert (row + 1) * L <= (L - 1) * L by {
      ProductMonotone(row + 1, L - 1, L);
    }
    assert (L - 1) * L + (L - 1) < L * L;
  }

  lemma ProductMonotone(a: nat, b: nat, c: nat)
    requires a <= b
    ensures a * c <= b * c
  {
  }

  lemma {:induction false} RowFacesBounded(L: nat, row: nat, cols: nat)
    requires row < L - 1 && cols <= L - 1
    ensures AllBelow(RowFaces(L, row, cols), L * L)
  {
    if cols > 0 {
      RowFacesBounded(L, row, cols - 1);
      CellFacesBounded(L, row, cols - 1);
    }
  }

  lemma {:induction false} GridFacesBounded(L: nat, rows: nat)
    requires 1 <= L && rows <= L - 1
    ensures AllBelow(GridFaces(L, rows), L * L)
  {
    if rows > 0 {
      GridFacesBounded(L, rows - 1);
      RowFacesBounded(L, rows - 1, L - 1);
    }
  }

  /** Every emitted index names a vertex of the L x L grid, so it is also a valid GLuint. */
  lemma TopologyBounded(L: nat)
    requires ValidSide(L)
    ensures forall k :: 0 <= k < |Topology(L)| ==> Topology(L)[k] < L * L <= GLuintRange
  {
    GridFacesBounded(L, L - 1);
  }

  // ---------------------------------------------------------------------------------------------
  // Winding

  /** The grid position of vertex i: column as x, row as y. */
  function Column(L: nat, i: nat): nat
    requires L > 0
  {
    i % L
  }

  function Row(L: nat, i: nat): nat
    requires L > 0
  {
    i / L
  }

  /** Twice the signed area of the triangle a-b-c laid out on the grid: positive exactly when the
      triangle is wound counter-clockwise. */
  function SignedArea2(L: nat, a: nat, b: nat, c: nat): int
    requires L > 0
  {
    (Column(L, b) - Column(L, a)) * (Row(L, c) - Row(L, a))
      - (Row(L, b) - Row(L, a)) * (Column(L, c) - Column(L, a))
  }

  predicate CounterClockwise(L: nat, a: nat, b: nat, c: nat)
    requires L > 0
  {
    SignedArea2(L, a, b, c) > 0
  }

  /** The index sequence, read as consecutive triples, lists only counter-clockwise triangles. */
  predicate AllCounterClockwise(L: nat, s: seq<nat>)
    requires L > 0
    decreases |s|
  {
    if |s| == 0 then true
    else |s| >= 3 && CounterClockwise(L, s[0], s[1], s[2]) && AllCounterClockwise(L, s[3..])
  }

  /** Decoding a row-major index gives back its row and column. */
  lemma DecodeIndex(L: nat, row: nat, col: nat)
    requires col < L
    ensures Row(L, VertexIndex(L, row, col)) == row
    ensures Column(L, VertexIndex(L, row, col)) == col
  {
    var i := row * L + col;
    var q, m := i / L, i % L;
    assert i == q * L + m && 0 <= m < L;
    assert (row - q) * L == m - col;
    if row > q {
      assert (row - q) * L >= L by { IntProductMonotone(row - q, L); }
    } else if row < q {
      assert (q - row) * L >= L by { IntProductMonotone(q - row, L); }
    }
  }

  lemma IntProductMonotone(a: int, L: nat)
    requires a >= 1
    ensures a * L >= L
  {
  }

  /** Both triangles of a cell are counter-clockwise (each has doubled signed area 1). */
  lemma CellCounterClockwise(L: nat, row: nat, col: nat)
    requires col < L - 1
    ensures AllCounterClockwise(L, CellFaces(L, row, col))
  {
    DecodeIndex(L, row, col);
    DecodeIndex(L, row, col + 1);
    DecodeIndex(L, row + 1, col);
    DecodeIndex(L, row + 1, col + 1);
    var f := CellFaces(L, row, col);
    assert SignedArea2(L, f[0], f[1], f[2]) == 1;
    assert SignedArea2(L, f[3], f[4], f[5]) == 1;
    assert f[3..][3..] == [];
  }

  lemma {:induction false} CounterClockwiseConcat(L: nat, a: seq<nat>, b: seq<nat>)
    requires L > 0 && AllCounterClockwise(L, a) && AllCounterClockwise(L, b)
    ensures AllCounterClockwise(L, a + b)
    decreases |a|
  {
    if |a| == 0 {
      assert a + b == b;
    } else {
      CounterClockwiseConcat(L, a[3..], b);
      assert (a + b)[3..] == a[3..] + b;
    }
  }

  lemma {:induction false} RowCounterClockwise(L: nat, row: nat, cols: nat)
    requires cols <= L - 1
    ensures AllCounterClockwise(L, RowFaces(L, row, cols))
  {
    if cols > 0 {
      RowCounterClockwise(L, row, cols - 1);
      CellCounterClockwise(L, row, cols - 1);
      CounterClockwiseConcat(L, RowFaces(L, row, cols - 1), CellFaces(L, row, cols - 1));
    }
  }

  lemma {:induction false} GridCounterClockwise(L: nat, rows: nat)
    requires 1 <= L
    ensures AllCounterClockwise(L, GridFaces(L, rows))
  {
    if rows > 0 {
      GridCounterClockwise(L, rows - 1);
      RowCounterClockwise(L, rows - 1, L - 1);
      CounterClockwiseConcat(L, GridFaces(L, rows - 1), RowFaces(L, rows - 1, L - 1));
    }
  }

  lemma {:induction false} CounterClockwiseAt(L: nat, s: seq<nat>, t: nat)
    requires L > 0 && AllCounterClockwise(L, s) && 3 * t + 2 < |s|
    ensures CounterClockwise(L, s[3 * t], s[3 * t + 1], s[3 * t + 2])
  {
    if t > 0 {
      CounterClockwiseAt(L, s[3..], t - 1);
    }
  }

  /** Every triangle of the topology (entries 3t, 3t + 1, 3t + 2), placed on the grid with the
      column as x and the row as y, has positive signed area: the winding is uniformly
      counter-clockwise. */
  lemma TopologyCounterClockwise(L: nat)
    requires 1 <= L
    ensures forall t :: 0 <= t && 3 * t + 2 < |Topology(L)| ==>
              CounterClockwise(L, Topology(L)[3 * t], Topology(L)[3 * t + 1], Topology(L)[3 * t + 2])
  {
    GridCounterClockwise(L, L - 1);
    forall t | 0 <= t && 3 * t + 2 < |Topology(L)|
      ensures CounterClockwise(L, Topology(L)[3 * t], Topology(L)[3 * t + 1], Topology(L)[3 * t + 2])
    {
      CounterClockwiseAt(L, Topology(L), t);
    }
  }

  // ---------------------------------------------------------------------------------------------
  // The two loops of initScene

  /** Fills the zero-initialized L x L table gridIndices with a running counter, row by row:
      entry [row, col] becomes row * L + col. */
  method BuildGridIndices(L: nat) returns (gridIndices: array2<nat>)
    requires ValidSide(L)
    ensures fresh(gridIndices)
    ensures gridIndices.Length0 == L && gridIndices.Length1 == L
    ensures forall r, c :: 0 <= r < L && 0 <= c < L ==> gridIndices[r, c] == VertexIndex(L, r, c)
  {
    gridIndices := new nat[L, L];
    var counterIndex: nat := 0;
    var row := 0;
    while row < L
      invariant 0 <= row <= L
      invariant counterIndex == row * L
      invariant forall r, c :: 0 <= r < row && 0 <= c < L ==> gridIndices[r, c] == VertexIndex(L, r, c)
    {
      var col := 0;
      while col < L
        invariant 0 <= col <= L
        invariant counterIndex == row * L + col
        invariant forall r, c :: 0 <= r < row && 0 <= c < L ==> gridIndices[r, c] == VertexIndex(L, r, c)
        invariant forall c :: 0 <= c < col ==> gridIndices[row, c] == VertexIndex(L, row, c)
      {
        gridIndices[row, col] := counterIndex;
        counterIndex := counterIndex + 1;
        col := col + 1;
      }
      row := row + 1;
    }
  }

  /** Appends two triangles per cell, cells visited row by row, reading the vertex indices from the
      table: afterwards drawFaces is its old value followed by the whole topology. */
  method AppendTopology(mesh: MeshObject, gridIndices: array2<nat>, L: nat)
    requires ValidSide(L)
    requires gridIndices.Length0 == L && gridIndices.Length1 == L
    requires forall r, c :: 0 <= r < L && 0 <= c < L ==> gridIndices[r, c] == VertexIndex(L, r, c)
    modifies mesh
    ensures mesh.drawFaces == old(mesh.drawFaces) + Topology(L)
    ensures mesh.textureId == old(mesh.textureId)
  {
    var row := 0;
    while row < L - 1
      invariant 0 <= row <= L - 1
      invariant mesh.drawFaces == old(mesh.drawFaces) + GridFaces(L, row)
      invariant mesh.textureId == old(mesh.textureId)
    {
      var col := 0;
      while col < L - 1
        invariant 0 <= col <= L - 1
        invariant mesh.drawFaces == old(mesh.drawFaces) + GridFaces(L, row) + RowFaces(L, row, col)
        invariant mesh.textureId == old(mesh.textureId)
      {
        AppendCell(mesh, gridIndices, L, row, col);
        AppendAssoc(old(mesh.drawFaces) + GridFaces(L, row), RowFaces(L, row, col), CellFaces(L, row, col));
        col := col + 1;
      }
      AppendAssoc(old(mesh.drawFaces), GridFaces(L, row), RowFaces(L, row, L - 1));
      row := row + 1;
    }
  }

  /** A fresh mesh holding the topology of an L x L grid: the index table is filled, then every
      cell's two triangles are appended. */
  method NewWaterGrid(L: nat) returns (mesh: MeshObject)
    requires ValidSide(L)
    ensures fresh(mesh) && mesh.drawFaces == Topology(L) && mesh.textureId == 0
  {
    mesh := new MeshObject();
    var gridIndices := BuildGridIndices(L);
    AppendTopology(mesh, gridIndices, L);
  }

  /** The six push_backs for the cell whose bottom-left corner is (row, col): the triangles
      (r,c)-(r+1,c+1)-(r+1,c) and (r,c)-(r,c+1)-(r+1,c+1), looked up in the index table. */
  method AppendCell(mesh: MeshObject, gridIndices: array2<nat>, L: nat, row: nat, col: nat)
    requires row < L - 1 && col < L - 1
    requires gridIndices.Length0 == L && gridIndices.Length1 == L
    requires forall r, c :: 0 <= r < L && 0 <= c < L ==> gridIndices[r, c] == VertexIndex(L, r, c)
    modifies mesh
    ensures mesh.drawFaces == old(mesh.drawFaces) + CellFaces(L, row, col)
    ensures mesh.textureId == old(mesh.textureId)
  {
    mesh.drawFaces := mesh.drawFaces + [gridIndices[row, col]];
    mesh.drawFaces := mesh.drawFaces + [gridIndices[row + 1, col + 1]];
    mesh.drawFaces := mesh.drawFaces + [gridIndices[row + 1, col]];

    mesh.drawFaces := mesh.drawFaces + [gridIndices[row, col]];
    mesh.drawFaces := mesh.drawFaces + [gridIndices[row, col + 1]];
    mesh.drawFaces := mesh.drawFaces + [gridIndices[row + 1, col + 1]];
  }
}
