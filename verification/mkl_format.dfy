/**
 * The description `get_native_layout` hands to MKL-DNN for a tensor the
 * transformer laid out (mkldnnpasses.py:98-134): its sizes and strides in
 * MKL order, strides counted in elements, and the canned memory format the
 * strides match, if any. Creating the layout object in the MKL-DNN library
 * is not part of this model.
 */
module MklFormat {
  import opened Wrappers
  import opened PyInt
  import opened MklAxes

  /** The MKL-DNN memory formats the classifier can pick. */
  datatype MemoryFormat = Blocked | Chwn | Nchw | Nc

  predicate NonIncreasing(s: seq<int>)
  {
    forall i, j :: 0 <= i < j < |s| ==> s[i] >= s[j]
  }

  /** Insert `x` into the non-increasing `s`, keeping it non-increasing. */
  function InsertDesc(x: int, s: seq<int>): (r: seq<int>)
    requires NonIncreasing(s)
    ensures NonIncreasing(r)
    ensures multiset(r) == multiset(s) + multiset{x}
    ensures |r| == |s| + 1
    ensures r[0] == if s != [] && s[0] > x then s[0] else x
  {
    if s == [] || x >= s[0] then [x] + s
    else
      var rest := InsertDesc(x, s[1..]);
      assert s == [s[0]] + s[1..];
      [s[0]] + rest
  }

  /** `sorted(s, reverse=True)` on integers. */
  function SortDesc(s: seq<int>): (r: seq<int>)
    ensures NonIncreasing(r)
    ensures multiset(r) == multiset(s)
  {
    if s == [] then []
    else
      assert s == s[..|s| - 1] + [s[|s| - 1]];
      InsertDesc(s[|s| - 1], SortDesc(s[..|s| - 1]))
  }

  /** Two non-increasing arrangements of the same values are the same sequence. */
  lemma {:induction false} NonIncreasingUnique(a: seq<int>, b: seq<int>)
    requires NonIncreasing(a) && NonIncreasing(b)
    requires multiset(a) == multiset(b)
    ensures a == b
  {
    if a != [] {
      assert |b| == |multiset(b)| == |multiset(a)| == |a|;
      SameHead(a, b);
      DropHead(a);
      DropHead(b);
      NonIncreasingUnique(a[1..], b[1..]);
      assert a == [a[0]] + a[1..] && b == [b[0]] + b[1..];
    }
  }

  /** Non-increasing arrangements of the same values start with the same, largest, value. */
  lemma SameHead(a: seq<int>, b: seq<int>)
    requires NonIncreasing(a) && NonIncreasing(b)
    requires multiset(a) == multiset(b) && a != [] && b != []
    ensures a[0] == b[0]
  {
    assert a[0] in multiset(b) && b[0] in multiset(a);
    var i :| 0 <= i < |a| && a[i] == b[0];
    var j :| 0 <= j < |b| && b[j] == a[0];
  }

  /** Dropping the head removes one occurrence of it. */
  lemma DropHead(a: seq<int>)
    requires a != []
    ensures multiset(a[1..]) == multiset(a) - multiset{a[0]}
  {
    assert a == [a[0]] + a[1..];
  }

  /**
   * The test the classifier makes: the descending sort of `s` equals the
   * rearrangement `t` of `s` exactly when `t` is non-increasing.
   */
  lemma SortDescEquals(s: seq<int>, t: seq<int>)
    requires multiset(t) == multiset(s)
    ensures SortDesc(s) == t <==> NonIncreasing(t)
  {
    if NonIncreasing(t) {
      NonIncreasingUnique(SortDesc(s), t);
    }
  }

  /**
   * The canned format for element strides (mkldnnpasses.py:115-127):
   * four strides `[N, C, H, W]` are 'chwn' when they sort to `[C, H, W, N]`
   * (tested first) and 'nchw' when they sort to `[N, C, H, W]`; two strides
   * `[N, C]` are 'nc' when they sort to themselves; anything else, or
   * `useFormats` off, is 'blocked'.
   */
  function CannedFormat(strides: seq<int>, useFormats: bool): MemoryFormat
  {
    if !useFormats then Blocked
    else if |strides| == 4 then
      var N, C, H, W := strides[0], strides[1], strides[2], strides[3];
      var order := SortDesc([N, C, H, W]);
      if order == [C, H, W, N] then Chwn
      else if order == [N, C, H, W] then Nchw
      else Blocked
    else if |strides| == 2 then
      if SortDesc(strides) == strides then Nc else Blocked
    else Blocked
  }

  /** The two tests on four strides `[N, C, H, W]`. */
  lemma SortFour(N: int, C: int, H: int, W: int)
    ensures SortDesc([N, C, H, W]) == [C, H, W, N] <==> C >= H >= W >= N
    ensures SortDesc([N, C, H, W]) == [N, C, H, W] <==> N >= C >= H >= W
  {
    var s := [N, C, H, W];
    PermutedFour(N, C, H, W);
    SortDescEquals(s, [C, H, W, N]);
    NonIncreasingFour(C, H, W, N);
    SortDescEquals(s, s);
    NonIncreasingFour(N, C, H, W);
  }

  lemma PermutedFour(N: int, C: int, H: int, W: int)
    ensures multiset([C, H, W, N]) == multiset([N, C, H, W])
  {
    var x, y := [C, H, W], [N];
    assert x + y == [C, H, W, N];
    assert y + x == [N, C, H, W];
    SwapPermutes(x, y);
  }

  /** Swapping two parts of a sequence keeps its values. */
  lemma SwapPermutes(x: seq<int>, y: seq<int>)
    ensures multiset(x + y) == multiset(y + x)
  {
  }

  lemma NonIncreasingFour(a: int, b: int, c: int, d: int)
    ensures NonIncreasing([a, b, c, d]) <==> a >= b >= c >= d
  {
    var s := [a, b, c, d];
    if a >= b >= c >= d {
      forall i, j | 0 <= i < j < 4 ensures s[i] >= s[j] {}
    }
    if NonIncreasing(s) {
      assert s[0] >= s[1] && s[1] >= s[2] && s[2] >= s[3];
    }
  }

  /** Four strides `[N, C, H, W]`: 'chwn' iff `C >= H >= W >= N`, else 'nchw' iff `N >= C >= H >= W`. */
  lemma CannedFormatFour(strides: seq<int>)
    requires |strides| == 4
    ensures CannedFormat(strides, true) ==
      if strides[1] >= strides[2] >= strides[3] >= strides[0] then Chwn
      else if strides[0] >= strides[1] >= strides[2] >= strides[3] then Nchw
      else Blocked
  {
    var N, C, H, W := strides[0], strides[1], strides[2], strides[3];
    SortFour(N, C, H, W);
  }

  /** Two strides `[N, C]`: 'nc' iff `N >= C`. */
  lemma CannedFormatTwo(strides: seq<int>)
    requires |strides| == 2
    ensures CannedFormat(strides, true) == if strides[0] >= strides[1] then Nc else Blocked
  {
    SortDescEquals(strides, strides);
    NonIncreasingTwo(strides);
  }

  /** The formats in terms of the strides themselves. */
  lemma CannedFormatMeaning(strides: seq<int>, useFormats: bool)
    ensures var f := CannedFormat(strides, useFormats);
      (f == Chwn <==> (useFormats && |strides| == 4 &&
        strides[1] >= strides[2] >= strides[3] >= strides[0])) &&
      (f == Nchw <==> (useFormats && |strides| == 4 &&
        !(strides[1] >= strides[2] >= strides[3] >= strides[0]) &&
        strides[0] >= strides[1] >= strides[2] >= strides[3])) &&
      (f == Nc <==> (useFormats && |strides| == 2 && strides[0] >= strides[1]))
  {
    if useFormats && |strides| == 4 {
      CannedFormatFour(strides);
    } else if useFormats && |strides| == 2 {
      CannedFormatTwo(strides);
    }
  }

  lemma NonIncreasingTwo(s: seq<int>)
    requires |s| == 2
    ensures NonIncreasing(s) <==> s[0] >= s[1]
  {
  }

  /** With all four strides equal both tests pass, and 'chwn' wins because it is tested first. */
  lemma EqualStridesAreChwn()
    ensures CannedFormat([1, 1, 1, 1], true) == Chwn
  {
    CannedFormatMeaning([1, 1, 1, 1], true);
  }

  /** What `get_native_layout` passes to `create_layout_md`, and the axes it returns. */
  datatype NativeDesc = NativeDesc(shape: seq<int>, strides: seq<int>, format: MemoryFormat, axes: seq<Axis>)

  /**
   * `get_native_layout(mkldnn, td, order, use_formats)` (mkldnnpasses.py:98-134)
   * for a tensor whose elements are `elemSize` bytes: the sizes, the
   * strides divided by the element size, and the axes, all in MKL order.
   * An index in `order` out of range raises `IndexError`; an element size
   * of 0 raises `ZeroDivisionError` only when there is a stride to divide.
   */
  function NativeLayout(td: TensorDesc, order: seq<nat>, elemSize: int, useFormats: bool): (r: Result<NativeDesc, string>)
    ensures r.Success? <==>
      SizeMklOrder(td.axes, order).Success? && StridesMklOrderSpec(td, order).Success? &&
      (elemSize != 0 || order == [])
    ensures r.Success? ==>
      r.value.shape == SizeMklOrder(td.axes, order).value &&
      |r.value.strides| == |order| &&
      (forall k :: 0 <= k < |order| ==>
        r.value.strides[k] == FloorDiv(StridesMklOrderSpec(td, order).value[k], elemSize)) &&
      r.value.format == CannedFormat(r.value.strides, useFormats) &&
      Success(r.value.axes) == AxesMklOrderSpec(td.axes, order)
  {
    var shape := SizeMklOrder(td.axes, order);
    if shape.Failure? then Failure(shape.error)
    else
      var strides := StridesMklOrderSpec(td, order);
      if strides.Failure? then Failure(strides.error)
      else if elemSize == 0 && |strides.value| > 0 then Failure(ZERO_DIVISION)
      else
        var s := strides.value;
        var mklStrides := seq(|s|, k requires 0 <= k < |s| => FloorDiv(s[k], elemSize));
        Success(NativeDesc(shape.value, mklStrides, CannedFormat(mklStrides, useFormats),
                           AxesMklOrderSpec(td.axes, order).value))
  }
}
