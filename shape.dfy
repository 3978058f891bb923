/** Matrix shapes: a kind tag with a per-kind validity rule, checked when a
    shape is built. */
module Shapes {
  import opened Wrappers

  /** `MatrixShape` and its subclasses `SquareShape`, `RowShape` and
      `ColumnShape`. */
  datatype Kind = General | Square | Row | Column

  datatype Shape = Shape(kind: Kind, rows: int, cols: int)

  /** The `validate` of each kind. A subclass's rule replaces the base rule
      instead of adding to it, so a square shape may be 0 x 0 or negative. */
  predicate Accepts(kind: Kind, rows: int, cols: int)
  {
    match kind
    case General => rows > 0 && cols > 0
    case Square => rows == cols
    case Row => rows == 1 && cols > rows
    case Column => rows > cols && cols == 1
  }

  /** A shape whose constructor did not throw. */
  type ValidShape = s: Shape | Accepts(s.kind, s.rows, s.cols) witness Shape(General, 1, 1)

  const ShapeError := "Incorrect sizes for matrix shape"

  /** `new <Kind>Shape(rows, cols)`: the shape, or the error its constructor
      throws. */
  function NewShape(kind: Kind, rows: int, cols: int): (r: Result<ValidShape>)
    ensures r.Ok? <==> Accepts(kind, rows, cols)
    ensures r.Ok? ==> r.value.kind == kind && r.value.rows == rows && r.value.cols == cols
    ensures r.Err? ==> r.message == ShapeError
  {
    if Accepts(kind, rows, cols) then Ok(Shape(kind, rows, cols)) else Err(ShapeError)
  }

  /** `transpose`: swaps the dimensions, turns a row into a column and back,
      and keeps square and general shapes. The transposed shape always passes
      its own constructor's check. */
  function Transpose(s: ValidShape): (t: ValidShape)
    ensures t.rows == s.cols && t.cols == s.rows
    ensures s.kind == Row <==> t.kind == Column
    ensures s.kind == Column <==> t.kind == Row
    ensures s.kind == Square <==> t.kind == Square
  {
    var kind := match s.kind
      case Row => Column
      case Column => Row
      case k => k;
    Shape(kind, s.cols, s.rows)
  }

  /** Transposing twice gives back the same shape. */
  lemma TransposeTwice(s: ValidShape)
    ensures Transpose(Transpose(s)) == s
  {
  }

  /** The order in which `match` tries the shape classes. */
  const MatchOrder: seq<Kind> := [Square, Row, Column, General]

  /** The position of the first kind in `candidates` that accepts the
      dimensions, or -1 when none does. */
  function FirstAccepting(candidates: seq<Kind>, rows: int, cols: int): (i: int)
    ensures -1 <= i < |candidates|
    ensures i >= 0 ==> Accepts(candidates[i], rows, cols)
    ensures i >= 0 ==> forall m :: 0 <= m < i ==> !Accepts(candidates[m], rows, cols)
    ensures i == -1 <==> forall m :: 0 <= m < |candidates| ==> !Accepts(candidates[m], rows, cols)
  {
    if candidates == [] then -1
    else if Accepts(candidates[0], rows, cols) then 0
    else
      var i := FirstAccepting(candidates[1..], rows, cols);
      if i == -1 then -1 else i + 1
  }

  /** `MatrixShape.match(rows, cols)`: throws unless both dimensions are
      positive, otherwise the first of square, row, column and general shape
      that accepts them. */
  function Match(rows: int, cols: int): (r: Result<ValidShape>)
    ensures r.Ok? <==> rows > 0 && cols > 0
    ensures r.Ok? ==> r.value.rows == rows && r.value.cols == cols
    ensures r.Err? ==> r.message == ShapeError
  {
    if !(rows > 0 && cols > 0) then Err(ShapeError)
    else
      // the general shape built before the loop stays when no class accepts
      var i := FirstAccepting(MatchOrder, rows, cols);
      var kind := if i == -1 then General else MatchOrder[i];
      Ok(Shape(kind, rows, cols))
  }

  /** The kind `match` picks for positive dimensions: square when they are
      equal, else a row for one row, else a column for one column, else
      general. */
  lemma MatchKind(rows: int, cols: int)
    requires rows > 0 && cols > 0
    ensures Match(rows, cols).Ok?
    ensures Match(rows, cols).value.kind ==
            if rows == cols then Square
            else if rows == 1 then Row
            else if cols == 1 then Column
            else General
  {
    var i := FirstAccepting(MatchOrder, rows, cols);
    assert Accepts(MatchOrder[3], rows, cols);
    assert i <= 0 <== Accepts(MatchOrder[0], rows, cols);
    assert i <= 1 <== Accepts(MatchOrder[1], rows, cols);
    assert i <= 2 <== Accepts(MatchOrder[2], rows, cols);
  }
}
