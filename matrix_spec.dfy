/** Integer matrices as row-major sequences of rows, and the arithmetic the
    matrix class is specified by. */
module MatrixSpec {

  /** The number of rows or columns a dimension yields: the source's loops
      run no times for a dimension below 1. */
  function Dim(n: int): nat
  {
    if n > 0 then n else 0
  }

  /** `m` has `rows` rows of `cols` entries each. */
  predicate IsMatrix(m: seq<seq<int>>, rows: nat, cols: nat)
  {
    |m| == rows && forall i :: 0 <= i < rows ==> |m[i]| == cols
  }

  function Zero(rows: nat, cols: nat): (z: seq<seq<int>>)
    ensures IsMatrix(z, rows, cols)
    ensures forall i, j :: 0 <= i < rows && 0 <= j < cols ==> z[i][j] == 0
  {
    seq(rows, _ => seq(cols, _ => 0))
  }

  function Transposed(m: seq<seq<int>>, rows: nat, cols: nat): (t: seq<seq<int>>)
    requires IsMatrix(m, rows, cols)
    ensures IsMatrix(t, cols, rows)
    ensures forall i, j :: 0 <= i < cols && 0 <= j < rows ==> t[i][j] == m[j][i]
  {
    seq(cols, i requires 0 <= i < cols => seq(rows, j requires 0 <= j < rows => m[j][i]))
  }

  function Sum(a: seq<seq<int>>, b: seq<seq<int>>, rows: nat, cols: nat): (s: seq<seq<int>>)
    requires IsMatrix(a, rows, cols) && IsMatrix(b, rows, cols)
    ensures IsMatrix(s, rows, cols)
    ensures forall i, j :: 0 <= i < rows && 0 <= j < cols ==> s[i][j] == a[i][j] + b[i][j]
  {
    seq(rows, i requires 0 <= i < rows => seq(cols, j requires 0 <= j < cols => a[i][j] + b[i][j]))
  }

  function Difference(a: seq<seq<int>>, b: seq<seq<int>>, rows: nat, cols: nat): (d: seq<seq<int>>)
    requires IsMatrix(a, rows, cols) && IsMatrix(b, rows, cols)
    ensures IsMatrix(d, rows, cols)
    ensures forall i, j :: 0 <= i < rows && 0 <= j < cols ==> d[i][j] == a[i][j] - b[i][j]
  {
    seq(rows, i requires 0 <= i < rows => seq(cols, j requires 0 <= j < cols => a[i][j] - b[i][j]))
  }

  /** Adding and then subtracting the same matrix gives back the first one. */
  lemma AddSubCancels(a: seq<seq<int>>, b: seq<seq<int>>, rows: nat, cols: nat)
    requires IsMatrix(a, rows, cols) && IsMatrix(b, rows, cols)
    ensures Difference(Sum(a, b, rows, cols), b, rows, cols) == a
  {
    var d := Difference(Sum(a, b, rows, cols), b, rows, cols);
    forall i | 0 <= i < rows
      ensures d[i] == a[i]
    {
    }
  }

  /** `a[i][0] * b[0][j] + ... + a[i][n-1] * b[n-1][j]`, added up in the
      order of the source's innermost loop. */
  function Dot(a: seq<seq<int>>, b: seq<seq<int>>, i: nat, j: nat, n: nat): int
    requires i < |a| && n <= |a[i]| && n <= |b|
    requires forall k :: 0 <= k < n ==> j < |b[k]|
  {
    if n == 0 then 0 else Dot(a, b, i, j, n - 1) + a[i][n - 1] * b[n - 1][j]
  }

  function Product(a: seq<seq<int>>, b: seq<seq<int>>, rows: nat, inner: nat, cols: nat): (p: seq<seq<int>>)
    requires IsMatrix(a, rows, inner) && IsMatrix(b, inner, cols)
    ensures IsMatrix(p, rows, cols)
    ensures forall i, j :: 0 <= i < rows && 0 <= j < cols ==> p[i][j] == Dot(a, b, i, j, inner)
  {
    seq(rows, i requires 0 <= i < rows => seq(cols, j requires 0 <= j < cols => Dot(a, b, i, j, inner)))
  }

  /** Ones on the diagonal, zeros elsewhere. */
  function Identity(rows: nat, cols: nat): (m: seq<seq<int>>)
    ensures IsMatrix(m, rows, cols)
    ensures forall i, j :: 0 <= i < rows && 0 <= j < cols ==> m[i][j] == if i == j then 1 else 0
  {
    seq(rows, i => seq(cols, j => if i == j then 1 else 0))
  }

  /** A dot product against a column of the identity picks one entry. */
  lemma {:induction false} DotIdentityRight(a: seq<seq<int>>, n: nat, i: nat, j: nat, k: nat)
    requires IsMatrix(a, n, n) && i < n && j < n && k <= n
    ensures Dot(a, Identity(n, n), i, j, k) == if j < k then a[i][j] else 0
  {
    if k > 0 {
      DotIdentityRight(a, n, i, j, k - 1);
    }
  }

  /** A dot product against a row of the identity picks one entry. */
  lemma {:induction false} DotIdentityLeft(a: seq<seq<int>>, n: nat, i: nat, j: nat, k: nat)
    requires IsMatrix(a, n, n) && i < n && j < n && k <= n
    ensures Dot(Identity(n, n), a, i, j, k) == if i < k then a[i][j] else 0
  {
    if k > 0 {
      DotIdentityLeft(a, n, i, j, k - 1);
    }
  }

  /** The identity is neutral for multiplication on both sides. */
  lemma IdentityNeutral(a: seq<seq<int>>, n: nat)
    requires IsMatrix(a, n, n)
    ensures Product(Identity(n, n), a, n, n, n) == a
    ensures Product(a, Identity(n, n), n, n, n) == a
  {
    var left, right := Product(Identity(n, n), a, n, n, n), Product(a, Identity(n, n), n, n, n);
    forall i, j | 0 <= i < n && 0 <= j < n
      ensures left[i][j] == a[i][j] && right[i][j] == a[i][j]
    {
      DotIdentityLeft(a, n, i, j, n);
      DotIdentityRight(a, n, i, j, n);
    }
    assert forall i | 0 <= i < n :: left[i] == a[i] && right[i] == a[i];
  }

  /** The sum of the first `n` diagonal entries. */
  function DiagonalSum(m: seq<seq<int>>, n: nat): int
    requires n <= |m| && forall i :: 0 <= i < n ==> i < |m[i]|
  {
    if n == 0 then 0 else DiagonalSum(m, n - 1) + m[n - 1][n - 1]
  }

  /** Transposing leaves the diagonal, and so its sum, alone. */
  lemma {:induction false} DiagonalSumTransposed(m: seq<seq<int>>, n: nat, k: nat)
    requires IsMatrix(m, n, n) && k <= n
    ensures DiagonalSum(Transposed(m, n, n), k) == DiagonalSum(m, k)
  {
    if k > 0 {
      DiagonalSumTransposed(m, n, k - 1);
    }
  }

  /** The `n` x `n` identity has trace `n`. */
  lemma {:induction false} DiagonalSumIdentity(n: nat, k: nat)
    requires k <= n
    ensures DiagonalSum(Identity(n, n), k) == k
  {
    if k > 0 {
      DiagonalSumIdentity(n, k - 1);
    }
  }

  /** `m` multiplied by itself `e` times. */
  function Power(m: seq<seq<int>>, n: nat, e: nat): (p: seq<seq<int>>)
    requires IsMatrix(m, n, n) && e >= 1
    ensures IsMatrix(p, n, n)
  {
    if e == 1 then m else Product(Power(m, n, e - 1), m, n, n, n)
  }
}
