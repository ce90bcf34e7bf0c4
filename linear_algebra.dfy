/** Vectors and dense matrices of reals (`std::vector<double>` and
    `std::vector<std::vector<double>>` with exact arithmetic), the dot product
    both trainers use, row-major filling from a stream of random draws, and
    the powers that give the decayed learning rate. */
module LinearAlgebra {

  type Vector = seq<real>
  type Matrix = seq<Vector>

  // -------------------------------------------------------------- dot product

  /** The sum of `v1[i] * v2[i]` over the indices of `v1`, added in
      increasing `i`. */
  function Dot(v1: Vector, v2: Vector): real
    requires |v1| <= |v2|
  {
    if |v1| == 0 then 0.0
    else Dot(v1[..|v1| - 1], v2) + v1[|v1| - 1] * v2[|v1| - 1]
  }

  /** `dot_product(v1, v2)`: an accumulator loop over the length of `v1`.
      Reading `v2[i]` for every such `i` needs `v2` at least as long. */
  method DotProduct(v1: Vector, v2: Vector) returns (result: real)
    requires |v1| <= |v2|
    ensures result == Dot(v1, v2)
  {
    result := 0.0;
    var i := 0;
    while i < |v1|
      invariant 0 <= i <= |v1|
      invariant result == Dot(v1[..i], v2)
    {
      assert v1[..i + 1][..i] == v1[..i];
      result := result + v1[i] * v2[i];
      i := i + 1;
    }
    assert v1[..|v1|] == v1;
  }

  /** Only the first `|v1|` entries of `v2` take part. */
  lemma {:induction false} DotPrefix(v1: Vector, v2: Vector, w2: Vector)
    requires |v1| <= |v2| && |v1| <= |w2|
    requires v2[..|v1|] == w2[..|v1|]
    ensures Dot(v1, v2) == Dot(v1, w2)
  {
    if |v1| > 0 {
      var k := |v1| - 1;
      assert v2[k] == v2[..|v1|][k] == w2[..|v1|][k] == w2[k];
      DotPrefix(v1[..k], v2, w2);
    }
  }

  /** The dot product of equally long vectors is symmetric. */
  lemma {:induction false} DotSymmetric(v1: Vector, v2: Vector)
    requires |v1| == |v2|
    ensures Dot(v1, v2) == Dot(v2, v1)
  {
    if |v1| > 0 {
      var k := |v1| - 1;
      DotPrefix(v1[..k], v2, v2[..k]);
      DotPrefix(v2[..k], v1, v1[..k]);
      DotSymmetric(v1[..k], v2[..k]);
    }
  }

  /** A vector of zeros annihilates the dot product. */
  lemma {:induction false} DotZero(v1: Vector, v2: Vector)
    requires |v1| <= |v2|
    requires forall i :: 0 <= i < |v1| ==> v1[i] == 0.0
    ensures Dot(v1, v2) == 0.0
  {
    if |v1| > 0 {
      DotZero(v1[..|v1| - 1], v2);
    }
  }

  // ------------------------------------------------------------------ shapes

  /** `rows` rows of `cols` entries each. */
  ghost predicate Shaped(M: Matrix, rows: nat, cols: nat)
  {
    |M| == rows && forall i :: 0 <= i < rows ==> |M[i]| == cols
  }

  /** `std::vector<std::vector<double>>(rows, std::vector<double>(cols, 0))`. */
  function Zeros(rows: nat, cols: nat): (M: Matrix)
    ensures Shaped(M, rows, cols)
    ensures forall i, k :: 0 <= i < rows && 0 <= k < cols ==> M[i][k] == 0.0
  {
    seq(rows, _ => seq(cols, _ => 0.0))
  }

  /** The number of entries, counted row by row. */
  function Size(M: Matrix): nat
  {
    if M == [] then 0 else Size(M[..|M| - 1]) + |M[|M| - 1]|
  }

  lemma {:induction false} SizeShaped(M: Matrix, rows: nat, cols: nat)
    requires Shaped(M, rows, cols)
    ensures Size(M) == rows * cols
  {
    if rows > 0 {
      SizeShaped(M[..rows - 1], rows - 1, cols);
      assert (rows - 1) * cols + cols == rows * cols;
    }
  }

  lemma {:induction false} SizePrefix(M: Matrix, i: nat)
    requires i <= |M|
    ensures Size(M[..i]) <= Size(M)
    decreases |M| - i
  {
    if i < |M| {
      assert M[..i + 1][..i] == M[..i];
      SizePrefix(M, i + 1);
    } else {
      assert M[..i] == M;
    }
  }

  // -------------------------------------------------------- random filling

  /** `M` with its entries overwritten in row-major order by the first
      `Size(M)` values of the stream `s`: row `i` takes the values that
      follow those of rows `0 .. i-1`. */
  function Refill(M: Matrix, s: seq<real>): (R: Matrix)
    requires Size(M) <= |s|
    ensures |R| == |M|
    ensures forall i :: 0 <= i < |M| ==> |R[i]| == |M[i]|
  {
    if M == [] then []
    else Refill(M[..|M| - 1], s) + [s[Size(M[..|M| - 1]) .. Size(M)]]
  }

  /** Every entry of a refilled matrix is one of the stream values used. */
  lemma {:induction false} RefillFromStream(M: Matrix, s: seq<real>, lo: real, hi: real)
    requires Size(M) <= |s|
    requires forall t :: 0 <= t < Size(M) ==> lo <= s[t] < hi
    ensures forall i, k :: 0 <= i < |M| && 0 <= k < |M[i]| ==> lo <= Refill(M, s)[i][k] < hi
  {
    if M != [] {
      var last := |M| - 1;
      RefillFromStream(M[..last], s, lo, hi);
      var R := Refill(M, s);
      forall i, k | 0 <= i < |M| && 0 <= k < |M[i]| ensures lo <= R[i][k] < hi {
        if i == last {
          assert R[i][k] == s[Size(M[..last]) + k];
        } else {
          assert M[..last][i] == M[i];
          assert R[i] == Refill(M[..last], s)[i];
        }
      }
    }
  }

  /** Refilling one more row appends that row's stretch of the stream. */
  lemma RefillNext(M: Matrix, s: seq<real>, i: nat)
    requires i < |M| && Size(M) <= |s|
    ensures Size(M[..i + 1]) == Size(M[..i]) + |M[i]| <= Size(M)
    ensures Refill(M[..i + 1], s) == Refill(M[..i], s) + [s[Size(M[..i]) .. Size(M[..i]) + |M[i]|]]
  {
    assert M[..i + 1][..i] == M[..i];
    SizePrefix(M, i + 1);
  }

  /** The inner loop of `init_matrix`: the entries of `row`, left to right,
      take the draws from position `pos` on. */
  method FillRow(row: Vector, draws: seq<real>, pos: nat) returns (filled: Vector)
    requires pos + |row| <= |draws|
    ensures filled == draws[pos .. pos + |row|]
  {
    filled := row;
    var j := 0;
    while j < |filled|
      invariant 0 <= j <= |filled| == |row|
      invariant forall q :: 0 <= q < j ==> filled[q] == draws[pos + q]
    {
      filled := filled[j := draws[pos + j]];
      j := j + 1;
    }
  }

  /** `init_matrix(matrix)`: every cell, row by row and left to right, is
      overwritten with the next value of `draws`; the shape (ragged rows
      included) is kept. */
  method InitMatrix(matrix: Matrix, draws: seq<real>) returns (filled: Matrix)
    requires Size(matrix) <= |draws|
    ensures filled == Refill(matrix, draws)
  {
    filled := matrix;
    SizePrefix(matrix, 0);
    var pos := 0;
    var i := 0;
    while i < |filled|
      invariant 0 <= i <= |filled| == |matrix|
      invariant pos == Size(matrix[..i]) <= Size(matrix)
      invariant filled[..i] == Refill(matrix[..i], draws)
      invariant filled[i..] == matrix[i..]
    {
      RefillNext(matrix, draws, i);
      assert filled[i] == matrix[i..][0];
      var row := FillRow(filled[i], draws, pos);
      filled := filled[i := row];
      assert filled[..i + 1] == Refill(matrix[..i], draws) + [row];
      assert filled[i + 1..] == matrix[i..][1..];
      pos := pos + |row|;
      i := i + 1;
    }
    assert matrix[..i] == matrix && filled[..i] == filled;
  }

  // ----------------------------------------------------------------- powers

  /** `x` multiplied by itself `k` times. */
  function Pow(x: real, k: nat): real
  {
    if k == 0 then 1.0 else Pow(x, k - 1) * x
  }

  /** With `0 < decay < 1`, successive powers strictly decrease and stay
      positive. */
  lemma {:induction false} PowDecreasing(x: real, k: nat)
    requires 0.0 < x < 1.0
    ensures 0.0 < Pow(x, k + 1) < Pow(x, k)
  {
    if k > 0 {
      PowDecreasing(x, k - 1);
    }
  }

  /** Every positive power of such an `x` lies strictly between 0 and 1. */
  lemma {:induction false} PowBelowOne(x: real, k: nat)
    requires 0.0 < x < 1.0 && k > 0
    ensures 0.0 < Pow(x, k) < 1.0
  {
    PowDecreasing(x, k - 1);
    if k > 1 {
      PowBelowOne(x, k - 1);
    }
  }

  // -------------------------------------------------------------- magnitude

  /** `std::abs` on a double. */
  function Abs(x: real): (r: real)
    ensures 0.0 <= r && (r == x || r == -x)
  {
    if x < 0.0 then -x else x
  }
}
