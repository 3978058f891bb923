/** The matrix class: a shape and zero-initialised row-major integer data,
    with transpose, trace, sum, difference, product and power. */
module Matrices {
  import opened Wrappers
  import opened Shapes
  import opened MatrixSpec

  const SizeError := "Size of matrices do not match."
  const ProductError := "RHS row count does not equal LHS col count."
  const TraceError := "Cannot compute trace of non-square matrix"

  /** Everything before position (i, j) in row-major order. */
  predicate Before(r: int, q: int, i: int, j: int)
  {
    r < i || (r == i && q < j)
  }

  class Matrix {
    var shape: ValidShape
    var data: seq<seq<int>>

    /** The data has as many rows and columns as the shape says; the
        source's `data` setter does not check this, so its callers must. */
    predicate Valid()
      reads this
    {
      IsMatrix(data, Dim(shape.rows), Dim(shape.cols))
    }

    /** `new Matrix(shape)`: all zeros. */
    constructor (s: ValidShape)
      ensures shape == s && data == Zero(Dim(s.rows), Dim(s.cols))
      ensures Valid()
    {
      var rows: seq<seq<int>> := [];
      for i := 0 to Dim(s.rows)
        invariant rows == Zero(i, Dim(s.cols))
      {
        rows := rows + [seq(Dim(s.cols), _ => 0)];
      }
      shape := s;
      data := rows;
    }

    /** `new IdentityMatrix(shape)`: zeros with ones on the diagonal. */
    constructor Identity(s: ValidShape)
      ensures shape == s && data == MatrixSpec.Identity(Dim(s.rows), Dim(s.cols))
      ensures Valid()
    {
      var rows: seq<seq<int>> := Zero(Dim(s.rows), Dim(s.cols));
      var n := if Dim(s.rows) < Dim(s.cols) then Dim(s.rows) else Dim(s.cols);
      for i := 0 to n
        invariant IsMatrix(rows, Dim(s.rows), Dim(s.cols))
        invariant forall r, q :: 0 <= r < Dim(s.rows) && 0 <= q < Dim(s.cols) ==>
                    rows[r][q] == if r == q && r < i then 1 else 0
      {
        rows := rows[i := rows[i][i := 1]];
      }
      shape := s;
      data := rows;
      assert forall r :: 0 <= r < Dim(s.rows) ==> rows[r] == MatrixSpec.Identity(Dim(s.rows), Dim(s.cols))[r];
    }

    /** The `data` setter: replaces the data, keeping the shape. */
    method SetData(value: seq<seq<int>>)
      modifies this
      requires IsMatrix(value, Dim(shape.rows), Dim(shape.cols))
      ensures data == value && shape == old(shape) && Valid()
    {
      data := value;
    }

    /** `transpose()`: a new matrix of the transposed shape holding the
        transposed data. */
    method Transpose() returns (t: Matrix)
      requires Valid()
      ensures fresh(t) && t.Valid()
      ensures t.shape == Shapes.Transpose(shape)
      ensures t.data == Transposed(data, Dim(shape.rows), Dim(shape.cols))
    {
      var rows, cols := Dim(shape.rows), Dim(shape.cols);
      t := new Matrix(Shapes.Transpose(shape));
      var d := t.data;
      for i := 0 to cols
        invariant IsMatrix(d, cols, rows)
        invariant forall x, y {:trigger d[x][y]} :: 0 <= x < cols && 0 <= y < rows ==>
                    d[x][y] == if x < i then data[y][x] else 0
      {
        for j := 0 to rows
          invariant IsMatrix(d, cols, rows)
          invariant forall x, y {:trigger d[x][y]} :: 0 <= x < cols && 0 <= y < rows ==>
                      d[x][y] == if Before(x, y, i, j) then data[y][x] else 0
        {
          d := d[i := d[i][j := data[j][i]]];
        }
      }
      t.data := d;
      assert forall r :: 0 <= r < cols ==> d[r] == Transposed(data, rows, cols)[r];
    }

    /** `trace()`: the diagonal sum of a matrix whose shape is a square
        shape, an error for any other shape, whatever its dimensions. */
    function Trace(): (r: Result<int>)
      reads this
      requires Valid()
      ensures r.Ok? <==> shape.kind == Square
      ensures r.Ok? ==> r.value == DiagonalSum(data, Dim(shape.rows))
      ensures r.Err? ==> r.message == TraceError
    {
      if shape.kind == Square then
        DiagonalFoldSum(data, 0, 0);
        Ok(DiagonalFold(data, 0, 0))
      else
        Err(TraceError)
    }

    /** `add(B)`: the entrywise sum, or an error when the dimensions differ. */
    method Add(b: Matrix) returns (r: Result<Matrix>)
      requires Valid() && b.Valid()
      ensures r.Err? <==> b.shape.rows != shape.rows || b.shape.cols != shape.cols
      ensures r.Err? ==> r.message == SizeError
      ensures r.Ok? ==> fresh(r.value) && r.value.Valid() && r.value.shape == shape
      ensures r.Ok? ==> r.value.data == Sum(data, b.data, Dim(shape.rows), Dim(shape.cols))
    {
      var c := new Matrix(shape);
      if b.shape.rows == shape.rows && b.shape.cols == shape.cols {
        var rows, cols := Dim(shape.rows), Dim(shape.cols);
        var d := c.data;
        for i := 0 to rows
          invariant IsMatrix(d, rows, cols)
          invariant forall p, q :: 0 <= p < rows && 0 <= q < cols ==>
                      d[p][q] == if p < i then data[p][q] + b.data[p][q] else 0
        {
          for j := 0 to cols
            invariant IsMatrix(d, rows, cols)
            invariant forall p, q :: 0 <= p < rows && 0 <= q < cols ==>
                        d[p][q] == if Before(p, q, i, j) then data[p][q] + b.data[p][q] else 0
          {
            d := d[i := d[i][j := data[i][j] + b.data[i][j]]];
          }
        }
        c.data := d;
        assert forall p :: 0 <= p < rows ==> d[p] == Sum(data, b.data, rows, cols)[p];
        r := Ok(c);
      } else {
        r := Err(SizeError);
      }
    }

    /** `sub(B)`: the entrywise difference, or an error when the dimensions
        differ. */
    method Sub(b: Matrix) returns (r: Result<Matrix>)
      requires Valid() && b.Valid()
      ensures r.Err? <==> b.shape.rows != shape.rows || b.shape.cols != shape.cols
      ensures r.Err? ==> r.message == SizeError
      ensures r.Ok? ==> fresh(r.value) && r.value.Valid() && r.value.shape == shape
      ensures r.Ok? ==> r.value.data == Difference(data, b.data, Dim(shape.rows), Dim(shape.cols))
    {
      var c := new Matrix(shape);
      if b.shape.rows == shape.rows && b.shape.cols == shape.cols {
        var rows, cols := Dim(shape.rows), Dim(shape.cols);
        var d := c.data;
        for i := 0 to rows
          invariant IsMatrix(d, rows, cols)
          invariant forall p, q :: 0 <= p < rows && 0 <= q < cols ==>
                      d[p][q] == if p < i then data[p][q] - b.data[p][q] else 0
        {
          for j := 0 to cols
            invariant IsMatrix(d, rows, cols)
            invariant forall p, q :: 0 <= p < rows && 0 <= q < cols ==>
                        d[p][q] == if Before(p, q, i, j) then data[p][q] - b.data[p][q] else 0
          {
            d := d[i := d[i][j := data[i][j] - b.data[i][j]]];
          }
        }
        c.data := d;
        assert forall p :: 0 <= p < rows ==> d[p] == Difference(data, b.data, rows, cols)[p];
        r := Ok(c);
      } else {
        r := Err(SizeError);
      }
    }

    /** `mult(B)`: the shape of the product is matched first, which fails
        unless both outer dimensions are positive; then the inner dimensions
        must agree; then each entry is the dot product of a row of this
        matrix with a column of `b`. */
    method Mult(b: Matrix) returns (r: Result<Matrix>)
      requires Valid() && b.Valid()
      ensures r.Ok? <==> shape.rows > 0 && b.shape.cols > 0 && shape.cols == b.shape.rows
      ensures r.Err? && !(shape.rows > 0 && b.shape.cols > 0) ==> r.message == ShapeError
      ensures r.Err? && shape.rows > 0 && b.shape.cols > 0 ==> r.message == ProductError
      ensures r.Ok? ==> fresh(r.value) && r.value.Valid()
      ensures r.Ok? ==> Match(shape.rows, b.shape.cols) == Ok(r.value.shape)
      ensures r.Ok? ==>
                r.value.data == Product(data, b.data, Dim(shape.rows), Dim(shape.cols), Dim(b.shape.cols))
    {
      var shp := Match(shape.rows, b.shape.cols);
      if shp.Err? {
        return Err(shp.message);
      }
      var c := new Matrix(shp.value);
      if shape.cols == b.shape.rows {
        var n, m, p := Dim(shape.rows), Dim(shape.cols), Dim(b.shape.cols);
        var d := c.data;
        for i := 0 to n
          invariant IsMatrix(d, n, p)
          invariant forall x, y :: 0 <= x < n && 0 <= y < p ==>
                      d[x][y] == if x < i then Dot(data, b.data, x, y, m) else 0
        {
          for j := 0 to p
            invariant IsMatrix(d, n, p)
            invariant forall x, y :: 0 <= x < n && 0 <= y < p ==>
                        d[x][y] == if Before(x, y, i, j) then Dot(data, b.data, x, y, m) else 0
          {
            for k := 0 to m
              invariant IsMatrix(d, n, p)
              invariant d[i][j] == Dot(data, b.data, i, j, k)
              invariant forall x, y :: 0 <= x < n && 0 <= y < p && (x, y) != (i, j) ==>
                          d[x][y] == if Before(x, y, i, j) then Dot(data, b.data, x, y, m) else 0
            {
              d := d[i := d[i][j := d[i][j] + data[i][k] * b.data[k][j]]];
            }
          }
        }
        c.data := d;
        assert forall x :: 0 <= x < n ==> d[x] == Product(data, b.data, n, m, p)[x];
        r := Ok(c);
      } else {
        r := Err(ProductError);
      }
    }

    /** `pow(e)` for `e >= 1`: `e - 1` successive right multiplications by
        this matrix, starting from the matrix itself, so `pow(1)` is the
        matrix itself and any other power of a non-square matrix throws
        from `mult`. */
    method Pow(e: int) returns (r: Result<Matrix>)
      requires Valid() && e >= 1
      ensures e == 1 ==> r == Ok(this)
      ensures r.Err? <==> e >= 2 && !(shape.rows > 0 && shape.rows == shape.cols)
      ensures r.Err? ==> r.message == if shape.rows > 0 then ProductError else ShapeError
      ensures r.Ok? && e >= 2 ==>
                fresh(r.value) && r.value.Valid() &&
                r.value.shape == Shape(Square, shape.rows, shape.rows) &&
                r.value.data == Power(data, Dim(shape.rows), e)
    {
      var p := this;
      for k := 1 to e
        invariant p.Valid()
        invariant k == 1 ==> p == this
        invariant k >= 2 ==>
                    shape.rows > 0 && shape.rows == shape.cols && fresh(p) &&
                    p.shape == Shape(Square, shape.rows, shape.rows) &&
                    p.data == Power(data, Dim(shape.rows), k)
      {
        var q := p.Mult(this);
        if q.Err? {
          return q;
        }
        MatchKind(shape.rows, shape.rows);
        p := q.value;
      }
      return Ok(p);
    }
  }

  /** The `reduce` in `trace`: adds `rows[i][i]` for each row from `i` on. */
  function DiagonalFold(rows: seq<seq<int>>, i: nat, acc: int): int
    requires i <= |rows| && forall k :: i <= k < |rows| ==> k < |rows[k]|
    decreases |rows| - i
  {
    if i == |rows| then acc else DiagonalFold(rows, i + 1, acc + rows[i][i])
  }

  /** The fold adds up the rest of the diagonal. */
  lemma {:induction false} DiagonalFoldSum(rows: seq<seq<int>>, i: nat, acc: int)
    requires i <= |rows| && forall k :: 0 <= k < |rows| ==> k < |rows[k]|
    ensures DiagonalFold(rows, i, acc) == acc + DiagonalSum(rows, |rows|) - DiagonalSum(rows, i)
    decreases |rows| - i
  {
    if i < |rows| {
      DiagonalFoldSum(rows, i + 1, acc + rows[i][i]);
    }
  }
}

/** The cases the matrix class is exercised with. */
module MatrixExamples {
  import opened Wrappers
  import opened Shapes
  import opened MatrixSpec
  import opened Matrices

  /** The adjacency matrix of a triangle. */
  const Triangle: seq<seq<int>> := [[0, 1, 1], [1, 0, 1], [1, 1, 0]]

  /** The square of the triangle's adjacency matrix counts walks of length
      two. */
  lemma TriangleSquare()
    ensures Power(Triangle, 3, 2) == [[2, 1, 1], [1, 2, 1], [1, 1, 2]]
  {
    var square := Product(Triangle, Triangle, 3, 3, 3);
    var expected := [[2, 1, 1], [1, 2, 1], [1, 1, 2]];
    forall i | 0 <= i < 3
      ensures square[i] == expected[i]
    {
      assert square[i][0] == expected[i][0] && square[i][1] == expected[i][1] && square[i][2] == expected[i][2];
    }
  }

  /** The cube of the triangle's adjacency matrix counts closed walks of
      length three on its diagonal. */
  lemma TriangleCube()
    ensures Power(Triangle, 3, 3) == [[2, 3, 3], [3, 2, 3], [3, 3, 2]]
  {
    TriangleSquare();
    var cube := Product([[2, 1, 1], [1, 2, 1], [1, 1, 2]], Triangle, 3, 3, 3);
    var expected := [[2, 3, 3], [3, 2, 3], [3, 3, 2]];
    forall i | 0 <= i < 3
      ensures cube[i] == expected[i]
    {
      assert cube[i][0] == expected[i][0] && cube[i][1] == expected[i][1] && cube[i][2] == expected[i][2];
    }
  }

  /** The trace of the cube of a triangle's adjacency matrix is 6: one
      triangle, counted once per starting vertex and direction. */
  method TriangleTrace() returns (t: Result<int>)
    ensures t == Ok(6)
  {
    var s := new Matrix(Shape(Square, 3, 3));
    s.SetData(Triangle);
    var cube := s.Pow(3);
    TriangleCube();
    assert DiagonalSum([[2, 3, 3], [3, 2, 3], [3, 3, 2]], 3) == 6;
    t := cube.value.Trace();
  }

  /** A 1 x 4 row transposes to the 4 x 1 column with the same entries, and
      cannot be raised to a power. */
  method RowExamples() returns (t: Matrix, p: Result<Matrix>)
    ensures t.shape == Shape(Column, 4, 1) && t.data == [[1], [2], [3], [4]]
    ensures p == Err(ProductError)
  {
    var d := new Matrix(Shape(Row, 1, 4));
    d.SetData([[1, 2, 3, 4]]);
    t := d.Transpose();
    assert forall i | 0 <= i < 4 :: t.data[i] == [[1], [2], [3], [4]][i];
    p := d.Pow(3);
  }

  /** A 3 x 3 matrix can be neither added to nor multiplied by a 4 x 1
      column. */
  method MismatchExamples() returns (sum: Result<Matrix>, product: Result<Matrix>)
    ensures sum == Err(SizeError) && product == Err(ProductError)
  {
    var a := new Matrix(Shape(Square, 3, 3));
    a.SetData([[1, 2, 3], [3, 1, 2], [2, 3, 1]]);
    var e := new Matrix(Shape(Column, 4, 1));
    e.SetData([[1], [2], [3], [4]]);
    sum := a.Add(e);
    product := a.Mult(e);
  }

  /** Multiplying by the 3 x 3 identity on either side gives the matrix back,
      and adding then subtracting a matrix gives the first one back. */
  method NeutralExamples() returns (left: Result<Matrix>, right: Result<Matrix>, back: Result<Matrix>)
    ensures left.Ok? && left.value.data == [[1, 2, 3], [3, 1, 2], [2, 3, 1]]
    ensures right.Ok? && right.value.data == [[1, 2, 3], [3, 1, 2], [2, 3, 1]]
    ensures back.Ok? && back.value.data == [[1, 2, 3], [3, 1, 2], [2, 3, 1]]
  {
    var a := new Matrix(Shape(Square, 3, 3));
    a.SetData([[1, 2, 3], [3, 1, 2], [2, 3, 1]]);
    var b := new Matrix(Shape(Square, 3, 3));
    b.SetData([[1, 3, 2], [2, 1, 3], [3, 2, 1]]);
    var id := new Matrix.Identity(Shape(Square, 3, 3));
    IdentityNeutral(a.data, 3);
    left := id.Mult(a);
    right := a.Mult(id);
    var sum := a.Add(b);
    AddSubCancels(a.data, b.data, 3, 3);
    back := sum.value.Sub(b);
  }
}
