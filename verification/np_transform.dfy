/**
 * The integer helpers of the numpy transformer (nptransform.py): the
 * output size of a convolution or pooling window along one dimension, the
 * one-hot encoder that writes into a caller's array, and the raw buffer
 * allocator.
 */
module NpTransform {
  import opened Wrappers
  import opened PyInt

  // ---------------------------------------------------------------------
  // proxy_backend

  /** `check_caffe_compat` (nptransform.py:33-35): Caffe-compatible sizing is never on. */
  function CheckCaffeCompat(): (on: bool)
    ensures !on
  {
    false
  }

  const FILTER_TOO_LARGE := "ValueError: filter dimension can not be larger than input data dimension"
  const PADDING_TOO_LARGE := "ValueError: padding dim incompatible with filter size"

  /**
   * `output_dim(X, S, padding, strides, pooling)` (nptransform.py:37-66):
   * how many windows of size `S` fit along a dimension of size `X` padded
   * by `padding` on each side, stepping by `strides`. A filter larger than
   * the input is refused before anything else; a zero stride raises
   * `ZeroDivisionError`; a pooling window no larger than its padding is
   * refused after the size has been computed. The Caffe branch is never
   * taken, because `CheckCaffeCompat` is false.
   */
  function OutputDim(X: int, S: int, padding: int, strides: int, pooling: bool): (r: Result<int, string>)
    ensures X < S ==> r == Failure(FILTER_TOO_LARGE)
    ensures X >= S && strides == 0 ==> r == Failure(ZERO_DIVISION)
    ensures X >= S && strides != 0 && pooling && padding >= S ==>
      r == Failure(PADDING_TOO_LARGE)
    ensures r.Success? <==> X >= S && strides != 0 && !(pooling && padding >= S)
    ensures r.Success? && strides > 0 ==>
      (r.value - 1) * strides <= X - S + 2 * padding < r.value * strides
  {
    if X < S then Failure(FILTER_TOO_LARGE)
    else
      var q := PyFloorDiv(X - S + 2 * padding, strides);
      if q.Failure? then Failure(q.error)
      else
        assert !(CheckCaffeCompat() && pooling);
        var size := q.value + 1;
        if pooling && padding >= S then Failure(PADDING_TOO_LARGE)
        else Success(size)
  }

  /** With a filter that fits, no negative padding and a positive stride, there is at least one window. */
  lemma OutputDimPositive(X: int, S: int, padding: int, strides: int, pooling: bool)
    requires X >= S && padding >= 0 && strides > 0
    requires !(pooling && padding >= S)
    ensures OutputDim(X, S, padding, strides, pooling).Success?
    ensures OutputDim(X, S, padding, strides, pooling).value >= 1
  {
    var r := OutputDim(X, S, padding, strides, pooling);
    assert (r.value - 1) * strides <= X - S + 2 * padding < r.value * strides;
    if r.value < 1 {
      MulNonPositive(r.value, strides);
    }
  }

  lemma MulNonPositive(a: int, b: int)
    requires a <= 0 && b > 0
    ensures a * b <= 0
  {
  }

  /** Each window start is a multiple of the stride: the size counts the starts `0, strides, ...` that leave room for the filter. */
  lemma OutputDimCountsWindows(X: int, S: int, padding: int, strides: int, k: int)
    requires X >= S && strides > 0 && 0 <= k
    ensures k < OutputDim(X, S, padding, strides, false).value <==> k * strides + S <= X + 2 * padding
  {
    var n := OutputDim(X, S, padding, strides, false).value;
    var d := X - S + 2 * padding;
    assert (n - 1) * strides <= d < n * strides;
    if k < n {
      MulMonotone(k, n - 1, strides);
    } else {
      MulMonotone(n, k, strides);
    }
  }

  lemma MulMonotone(a: int, b: int, c: int)
    requires a <= b && c > 0
    ensures a * c <= b * c
  {
  }

  // ---------------------------------------------------------------------
  // NumPyTransformer

  /** `bytearray(size)`: a new buffer of `size` zero bytes, or `ValueError` for a negative size (nptransform.py:86-96). */
  method MakeRawBuffer(size: int) returns (r: Result<array<bv8>, string>)
    ensures r.Success? <==> size >= 0
    ensures r.Success? ==>
      (fresh(r.value) && r.value.Length == size && forall i :: 0 <= i < size ==> r.value[i] == 0)
  {
    if size < 0 {
      return Failure("ValueError: negative count");
    }
    var buf := new bv8[size](_ => 0);
    r := Success(buf);
  }

  /** A numpy index into an axis of length `len`: negative indices count from the end. */
  predicate IndexOk(v: int, len: nat)
  {
    -(len as int) <= v < len
  }

  function RowOf(v: int, len: nat): (row: nat)
    requires IndexOk(v, len)
    ensures row < len
    ensures v >= 0 ==> row == v
    ensures v < 0 ==> row + -v == len
  {
    if v < 0 then len + v else v
  }

  /**
   * How many leading entries of `x` can be placed, entry `i` as a one in
   * row `x[i]` of column `i`: the loop stops with `IndexError` at the first
   * that cannot.
   */
  function Placed(x: seq<int>, rows: nat, cols: nat): (k: nat)
    ensures k <= |x|
    ensures k <= cols && forall i :: 0 <= i < k ==> IndexOk(x[i], rows)
    ensures k < |x| ==> !(k < cols && IndexOk(x[k], rows))
  {
    if x == [] then 0
    else
      var init := x[..|x| - 1];
      var k := Placed(init, rows, cols);
      assert forall i :: 0 <= i < |init| ==> init[i] == x[i];
      if k == |init| && |init| < cols && IndexOk(x[|init|], rows) then |x| else k
  }

  /** A cell after placing the first `n` entries of `x`: one exactly where column `c < n` has its row `x[c]`. */
  function Cell(x: seq<int>, rows: nat, cols: nat, n: nat, row: nat, c: nat): int
    requires n <= |x| && n <= cols && forall i :: 0 <= i < n ==> IndexOk(x[i], rows)
  {
    if c < n && row == RowOf(x[c], rows) then 1 else 0
  }

  /** The sum of column `c`'s cells in rows `0 .. m - 1`. */
  function ColumnSum(x: seq<int>, rows: nat, cols: nat, n: nat, c: nat, m: nat): int
    requires n <= |x| && n <= cols && forall i :: 0 <= i < n ==> IndexOk(x[i], rows)
  {
    if m == 0 then 0 else ColumnSum(x, rows, cols, n, c, m - 1) + Cell(x, rows, cols, n, m - 1, c)
  }

  /** A placed column holds a single one, a column not placed holds none. */
  lemma {:induction false} ColumnSumOneHot(x: seq<int>, rows: nat, cols: nat, n: nat, c: nat, m: nat)
    requires n <= |x| && n <= cols && forall i :: 0 <= i < n ==> IndexOk(x[i], rows)
    requires m <= rows
    ensures c < n ==> ColumnSum(x, rows, cols, n, c, m) == if RowOf(x[c], rows) < m then 1 else 0
    ensures c >= n ==> ColumnSum(x, rows, cols, n, c, m) == 0
  {
    if m > 0 {
      ColumnSumOneHot(x, rows, cols, n, c, m - 1);
    }
  }

  /**
   * `onehot(x, out)` (nptransform.py:444-457): `out`, a `rows` by `cols`
   * array, is zeroed, then column `i` gets a one in row `x[i]` for each
   * `i` in turn. An entry that is no valid row, or a column beyond the
   * array, raises `IndexError`, leaving the columns already written as
   * they are.
   */
  method OneHot(x: seq<int>, out: array2<int>) returns (r: Result<(), string>)
    modifies out
    ensures var rows, cols := out.Length0, out.Length1;
      var n := Placed(x, rows, cols);
      (r.Success? <==> n == |x|) &&
      forall row, c :: 0 <= row < rows && 0 <= c < cols ==> out[row, c] == Cell(x, rows, cols, n, row, c)
    ensures r.Success? ==>
      (forall i :: 0 <= i < |x| ==>
        (i < out.Length1 && IndexOk(x[i], out.Length0) &&
         out[RowOf(x[i], out.Length0), i] == 1 &&
         forall row :: 0 <= row < out.Length0 && row != RowOf(x[i], out.Length0) ==> out[row, i] == 0)) &&
      (forall row, c :: 0 <= row < out.Length0 && |x| <= c < out.Length1 ==> out[row, c] == 0)
    ensures forall row, c :: 0 <= row < out.Length0 && 0 <= c < out.Length1 ==> out[row, c] == 0 || out[row, c] == 1
  {
    var rows, cols := out.Length0, out.Length1;
    for row := 0 to rows
      invariant forall a, b :: 0 <= a < row && 0 <= b < cols ==> out[a, b] == 0
    {
      for c := 0 to cols
        invariant forall a, b :: 0 <= a < rows && 0 <= b < cols && (a < row || (a == row && b < c)) ==> out[a, b] == 0
      {
        out[row, c] := 0;
      }
    }
    for i := 0 to |x|
      invariant i <= cols && forall j :: 0 <= j < i ==> IndexOk(x[j], rows)
      invariant forall a, b :: 0 <= a < rows && 0 <= b < cols ==> out[a, b] == Cell(x, rows, cols, i, a, b)
    {
      if !(i < cols && IndexOk(x[i], rows)) {
        return Failure("IndexError: index out of bounds");
      }
      out[RowOf(x[i], rows), i] := 1;
    }
    r := Success(());
  }
}
