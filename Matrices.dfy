/** Dense real matrices, the small part of the linear-algebra collaborator that the
    inverse-Wishart distribution needs: shape, element access, multiplication by a
    scalar, a zero matrix of a given shape and an element update. */
module Matrices {

  /** A matrix laid out by rows: `cells[i][j]` is the entry in row `i`, column `j`. */
  datatype Grid = Grid(rows: nat, cols: nat, cells: seq<seq<real>>)
  {
    /** The row list has `rows` rows of `cols` entries each. */
    predicate Shaped()
    {
      |cells| == rows && forall i :: 0 <= i < |cells| ==> |cells[i]| == cols
    }

    /** Element access, `Matrix.At(i, j)`. */
    function At(i: nat, j: nat): real
      requires Shaped() && i < rows && j < cols
    {
      cells[i][j]
    }

    predicate IsSymmetric()
      requires Shaped()
    {
      rows == cols && forall i, j :: 0 <= i < rows && 0 <= j < rows ==> At(i, j) == At(j, i)
    }

    /** Multiplication by a scalar, `matrix * c`. */
    function Scaled(c: real): (r: Matrix)
      requires Shaped()
      ensures r.rows == rows && r.cols == cols
      ensures forall i, j :: 0 <= i < rows && 0 <= j < cols ==> r.At(i, j) == At(i, j) * c
    {
      Grid(rows, cols, seq(rows, i requires 0 <= i < rows => seq(cols, j requires 0 <= j < cols => cells[i][j] * c)))
    }

    /** The element setter `Matrix.At(i, j, v)`: the same matrix with entry (i, j) replaced by `v`. */
    function Updated(i: nat, j: nat, v: real): (r: Matrix)
      requires Shaped() && i < rows && j < cols
      ensures r.rows == rows && r.cols == cols
      ensures r.At(i, j) == v
      ensures forall k, l :: 0 <= k < rows && 0 <= l < cols && (k != i || l != j) ==> r.At(k, l) == At(k, l)
    {
      Grid(rows, cols, cells[i := cells[i][j := v]])
    }
  }

  /** Only well-shaped grids are matrices. */
  type Matrix = m: Grid | m.Shaped() witness Grid(0, 0, [])

  /** A fresh zero matrix of the given shape, `CreateMatrix(rows, cols)`. */
  function Zeros(rows: nat, cols: nat): (m: Matrix)
    ensures m.rows == rows && m.cols == cols
    ensures forall i, j :: 0 <= i < rows && 0 <= j < cols ==> m.At(i, j) == 0.0
  {
    Grid(rows, cols, seq(rows, _ => seq(cols, _ => 0.0)))
  }

  /** The n-by-n identity matrix. */
  function Identity(n: nat): (m: Matrix)
    ensures m.rows == n && m.cols == n
    ensures forall i, j :: 0 <= i < n && 0 <= j < n ==> m.At(i, j) == if i == j then 1.0 else 0.0
  {
    Grid(n, n, seq(n, i => seq(n, j => if i == j then 1.0 else 0.0)))
  }
}
