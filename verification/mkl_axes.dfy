/**
 * Axis bookkeeping of the MKL-DNN passes (mkldnnpasses.py:45-95,151-175):
 * finding axes by name, putting axes, sizes and strides into the order
 * MKL-DNN expects, the axis list MKL-DNN sees, the permutation between two
 * axis lists, and the C-array marshalling of integer lists.
 */
module MklAxes {
  import opened Wrappers
  import opened SeqUtil

  /**
   * An axis: its name, its length, and, for a flattened axis, the axes it
   * was flattened from (an axis is flattened exactly when `parts` is not
   * empty).
   */
  datatype Axis = Axis(name: string, length: int, parts: seq<Axis>)

  predicate IsFlattened(a: Axis) { |a.parts| > 0 }

  /** `[s[i] for i in idx]`, which raises `IndexError` when an index is out of range. */
  function Pick<T>(s: seq<T>, idx: seq<nat>): (r: Result<seq<T>, string>)
    ensures r.Success? <==> forall k :: 0 <= k < |idx| ==> idx[k] < |s|
    ensures r.Success? ==> r.value == Gather(s, idx)
  {
    if forall k :: 0 <= k < |idx| ==> idx[k] < |s| then Success(Gather(s, idx))
    else Failure("IndexError: list index out of range")
  }

  // ---------------------------------------------------------------------
  // get_order_from_axes (mkldnnpasses.py:45-56)

  /** The positions of every axis in `axes` named `name`, in increasing order. */
  function IndicesNamed(axes: seq<Axis>, name: string): (r: seq<nat>)
    ensures forall k :: 0 <= k < |r| ==> r[k] < |axes| && axes[r[k]].name == name
    ensures forall i :: 0 <= i < |axes| && axes[i].name == name ==> i in r
    ensures forall j, k :: 0 <= j < k < |r| ==> r[j] < r[k]
  {
    if axes == [] then []
    else
      var init := IndicesNamed(axes[..|axes| - 1], name);
      if axes[|axes| - 1].name == name then init + [|axes| - 1] else init
  }

  /**
   * What `get_order_from_axes(axes, sub_axes)` returns: for each axis of
   * `sub_axes` in turn, the positions of all axes of `axes` with its name
   * (the inner loop's `continue` does not stop the search). It fails with
   * "Axis not found" at the first axis of `sub_axes` that matches nothing.
   */
  function OrderFromAxesSpec(axes: seq<Axis>, subAxes: seq<Axis>): (r: Result<seq<nat>, string>)
    ensures r.Success? ==> forall j :: 0 <= j < |r.value| ==> r.value[j] < |axes|
  {
    if subAxes == [] then Success([])
    else
      var init := OrderFromAxesSpec(axes, subAxes[..|subAxes| - 1]);
      if init.Failure? then init
      else
        var m := IndicesNamed(axes, subAxes[|subAxes| - 1].name);
        if m == [] then Failure("Axis not found") else Success(init.value + m)
  }

  predicate HasName(axes: seq<Axis>, name: string)
  {
    exists i :: 0 <= i < |axes| && axes[i].name == name
  }

  /** Every axis of `sub_axes` has a namesake in `axes`. */
  predicate AllPresent(axes: seq<Axis>, subAxes: seq<Axis>)
  {
    forall k :: 0 <= k < |subAxes| ==> HasName(axes, subAxes[k].name)
  }

  /** Some axis of `axes` is named `name` exactly when `IndicesNamed` finds one. */
  lemma IndicesNamedNonEmpty(axes: seq<Axis>, name: string)
    ensures IndicesNamed(axes, name) != [] <==> HasName(axes, name)
  {
    var m := IndicesNamed(axes, name);
    if m != [] {
      assert axes[m[0]].name == name;
    }
    if HasName(axes, name) {
      var i :| 0 <= i < |axes| && axes[i].name == name;
      assert i in m;
    }
  }

  /** With distinct names in `axes`, at most one position carries a given name. */
  lemma {:induction false} IndicesNamedAtMostOne(axes: seq<Axis>, name: string)
    requires forall i, j :: 0 <= i < j < |axes| ==> axes[i].name != axes[j].name
    ensures |IndicesNamed(axes, name)| <= 1
  {
    if axes != [] {
      var init := axes[..|axes| - 1];
      IndicesNamedAtMostOne(init, name);
      if axes[|axes| - 1].name == name {
        IndicesNamedNonEmpty(init, name);
        assert !HasName(init, name);
      }
    }
  }

  lemma AllPresentSnoc(axes: seq<Axis>, init: seq<Axis>, last: Axis)
    ensures AllPresent(axes, init + [last]) <==> AllPresent(axes, init) && HasName(axes, last.name)
  {
    var s := init + [last];
    assert forall k :: 0 <= k < |init| ==> s[k] == init[k];
    assert s[|init|] == last;
  }

  /** The order fails exactly when some axis of `sub_axes` has no namesake in `axes`. */
  lemma {:induction false} OrderFromAxesFails(axes: seq<Axis>, subAxes: seq<Axis>)
    ensures OrderFromAxesSpec(axes, subAxes).Success? <==> AllPresent(axes, subAxes)
  {
    if subAxes != [] {
      var init := subAxes[..|subAxes| - 1];
      var last := subAxes[|subAxes| - 1];
      OrderFromAxesFails(axes, init);
      IndicesNamedNonEmpty(axes, last.name);
      AllPresentSnoc(axes, init, last);
      assert init + [last] == subAxes;
    }
  }

  /**
   * When the names in `axes` are distinct, the order has one entry per axis
   * of `sub_axes`, and entry `k` is the position of `sub_axes[k]`'s name.
   */
  lemma {:induction false} OrderFromAxesDistinct(axes: seq<Axis>, subAxes: seq<Axis>)
    requires forall i, j :: 0 <= i < j < |axes| ==> axes[i].name != axes[j].name
    requires OrderFromAxesSpec(axes, subAxes).Success?
    ensures var order := OrderFromAxesSpec(axes, subAxes).value;
      |order| == |subAxes| &&
      forall k :: 0 <= k < |subAxes| ==> order[k] < |axes| && axes[order[k]].name == subAxes[k].name
  {
    if subAxes != [] {
      var init := subAxes[..|subAxes| - 1];
      var last := subAxes[|subAxes| - 1];
      OrderFromAxesDistinct(axes, init);
      var m := IndicesNamed(axes, last.name);
      assert m != [];
      IndicesNamedAtMostOne(axes, last.name);
    }
  }

  /**
   * The inner loop of `get_order_from_axes`: every position in `axes`
   * whose axis is named `name` is appended to `order`, in increasing order.
   */
  method AppendNamed(order: seq<nat>, axes: seq<Axis>, name: string) returns (order': seq<nat>, found: bool)
    ensures order' == order + IndicesNamed(axes, name)
    ensures found <==> HasName(axes, name)
  {
    order', found := order, false;
    for index := 0 to |axes|
      invariant order' == order + IndicesNamed(axes[..index], name)
      invariant found <==> IndicesNamed(axes[..index], name) != []
    {
      assert axes[..index + 1][..index] == axes[..index];
      if axes[index].name == name {
        order' := order' + [index];
        found := true;
      }
    }
    assert axes[..|axes|] == axes;
    IndicesNamedNonEmpty(axes, name);
  }

  /** `get_order_from_axes` (mkldnnpasses.py:45-56). */
  method OrderFromAxes(axes: seq<Axis>, subAxes: seq<Axis>) returns (r: Result<seq<nat>, string>)
    ensures r == OrderFromAxesSpec(axes, subAxes)
    ensures r.Success? <==> AllPresent(axes, subAxes)
  {
    var order: seq<nat> := [];
    for k := 0 to |subAxes|
      invariant OrderFromAxesSpec(axes, subAxes[..k]) == Success(order)
    {
      assert subAxes[..k + 1][..k] == subAxes[..k];
      var found;
      order, found := AppendNamed(order, axes, subAxes[k].name);
      if !found {
        r := Failure("Axis not found");
        IndicesNamedNonEmpty(axes, subAxes[k].name);
        OrderFromAxesFails(axes, subAxes);
        PrefixFailurePersists(axes, subAxes, k + 1);
        return;
      }
    }
    assert subAxes[..|subAxes|] == subAxes;
    r := Success(order);
    OrderFromAxesFails(axes, subAxes);
  }

  /** A failure on a prefix of `sub_axes` is the failure of the whole. */
  lemma {:induction false} PrefixFailurePersists(axes: seq<Axis>, subAxes: seq<Axis>, n: nat)
    requires n <= |subAxes|
    requires OrderFromAxesSpec(axes, subAxes[..n]).Failure?
    ensures OrderFromAxesSpec(axes, subAxes) == OrderFromAxesSpec(axes, subAxes[..n])
    decreases |subAxes| - n
  {
    if n < |subAxes| {
      assert subAxes[..n + 1][..n] == subAxes[..n];
      PrefixFailurePersists(axes, subAxes, n + 1);
    } else {
      assert subAxes[..n] == subAxes;
    }
  }

  // ---------------------------------------------------------------------
  // get_axes_mkl_order, get_size_mkl_order (mkldnnpasses.py:59-77)

  /** Each flattened axis replaced, in place, by the axes it was flattened from. */
  function Expand(axes: seq<Axis>): (r: seq<Axis>)
    ensures |r| >= |axes|
  {
    if axes == [] then []
    else
      var last := axes[|axes| - 1];
      Expand(axes[..|axes| - 1]) + (if IsFlattened(last) then last.parts else [last])
  }

  /** Without flattened axes there is nothing to expand. */
  lemma {:induction false} ExpandUnflattened(axes: seq<Axis>)
    requires forall i :: 0 <= i < |axes| ==> !IsFlattened(axes[i])
    ensures Expand(axes) == axes
  {
    if axes != [] {
      ExpandUnflattened(axes[..|axes| - 1]);
      assert axes[..|axes| - 1] + [axes[|axes| - 1]] == axes;
    }
  }

  /**
   * What `get_axes_mkl_order(axes, order)` returns: with more than two
   * entries in `order`, flattened axes are first expanded; then the axes at
   * the positions in `order` are picked.
   */
  function AxesMklOrderSpec(axes: seq<Axis>, order: seq<nat>): Result<seq<Axis>, string>
  {
    Pick(if |order| > 2 then Expand(axes) else axes, order)
  }

  /** With no flattened axis, or with at most two positions, the axes are picked as they are. */
  lemma AxesMklOrderPlain(axes: seq<Axis>, order: seq<nat>)
    requires |order| <= 2 || forall i :: 0 <= i < |axes| ==> !IsFlattened(axes[i])
    ensures AxesMklOrderSpec(axes, order) == Pick(axes, order)
  {
    if |order| > 2 {
      ExpandUnflattened(axes);
    }
  }

  /** `get_axes_mkl_order` (mkldnnpasses.py:59-73). */
  method AxesMklOrder(axes: seq<Axis>, order: seq<nat>) returns (r: Result<seq<Axis>, string>)
    ensures r == AxesMklOrderSpec(axes, order)
  {
    var axesList: seq<Axis> := [];
    var flattenedFlag := false;
    for i := 0 to |axes|
      invariant axesList == if |order| > 2 then Expand(axes[..i]) else axes[..i]
      invariant flattenedFlag <==> |order| > 2 && exists j :: 0 <= j < i && IsFlattened(axes[j])
    {
      assert axes[..i + 1][..i] == axes[..i];
      var axis := axes[i];
      if IsFlattened(axis) && |order| > 2 {
        ghost var before := axesList;
        for k := 0 to |axis.parts|
          invariant axesList == before + axis.parts[..k]
          invariant flattenedFlag <==> k > 0 || exists j :: 0 <= j < i && IsFlattened(axes[j])
        {
          axesList := axesList + [axis.parts[k]];
          flattenedFlag := true;
        }
        assert axis.parts[..|axis.parts|] == axis.parts;
      } else {
        axesList := axesList + [axis];
      }
    }
    assert axes[..|axes|] == axes;
    if flattenedFlag {
      r := Pick(axesList, order);
    } else {
      if |order| > 2 {
        ExpandUnflattened(axes);
      }
      r := Pick(axes, order);
    }
  }

  /** `get_size_mkl_order` (mkldnnpasses.py:76-77): the lengths of the ordered axes. */
  function SizeMklOrder(axes: seq<Axis>, order: seq<nat>): (r: Result<seq<int>, string>)
    ensures r.Success? <==> AxesMklOrderSpec(axes, order).Success?
    ensures r.Success? ==> (|r.value| == |order| &&
      forall k :: 0 <= k < |order| ==> r.value[k] == AxesMklOrderSpec(axes, order).value[k].length)
  {
    var picked := AxesMklOrderSpec(axes, order);
    if picked.Failure? then Failure(picked.error)
    else Success(seq(|picked.value|, k requires 0 <= k < |picked.value| => picked.value[k].length))
  }

  // ---------------------------------------------------------------------
  // get_strides_mkl_order (mkldnnpasses.py:80-95)

  /** An entry of `full_strides`: one stride, or a tuple of strides for a flattened axis. */
  datatype StrideEntry = One(stride: int) | Group(strides: seq<int>)

  /** The parts of a tensor description the stride helper reads. */
  datatype TensorDesc = TensorDesc(axes: seq<Axis>, strides: seq<int>, fullStrides: seq<StrideEntry>)

  /** `full_strides` with every tuple entry spliced in flat. */
  function SpliceStrides(full: seq<StrideEntry>): seq<int>
  {
    if full == [] then []
    else
      var last := full[|full| - 1];
      SpliceStrides(full[..|full| - 1]) + (match last case One(s) => [s] case Group(ss) => ss)
  }

  /**
   * What `get_strides_mkl_order(td, order)` returns: when some axis is
   * flattened and `order` has more than two entries, the spliced full
   * strides are picked; otherwise the strides themselves.
   */
  function StridesMklOrderSpec(td: TensorDesc, order: seq<nat>): Result<seq<int>, string>
  {
    if |order| > 2 && exists i :: 0 <= i < |td.axes| && IsFlattened(td.axes[i])
    then Pick(SpliceStrides(td.fullStrides), order)
    else Pick(td.strides, order)
  }

  /** `get_strides_mkl_order` (mkldnnpasses.py:80-95). */
  method StridesMklOrder(td: TensorDesc, order: seq<nat>) returns (r: Result<seq<int>, string>)
    ensures r == StridesMklOrderSpec(td, order)
    ensures (forall i :: 0 <= i < |td.axes| ==> !IsFlattened(td.axes[i])) ==> r == Pick(td.strides, order)
  {
    var flattenedFlag := false;
    for i := 0 to |td.axes|
      invariant flattenedFlag <==> |order| > 2 && exists j :: 0 <= j < i && IsFlattened(td.axes[j])
    {
      if IsFlattened(td.axes[i]) && |order| > 2 {
        flattenedFlag := true;
      }
    }
    if flattenedFlag {
      var stridesList: seq<int> := [];
      for k := 0 to |td.fullStrides|
        invariant stridesList == SpliceStrides(td.fullStrides[..k])
      {
        assert td.fullStrides[..k + 1][..k] == td.fullStrides[..k];
        match td.fullStrides[k]
        case Group(ss) =>
          for j := 0 to |ss|
            invariant stridesList == SpliceStrides(td.fullStrides[..k]) + ss[..j]
          {
            stridesList := stridesList + [ss[j]];
          }
          assert ss[..|ss|] == ss;
        case One(s) =>
          stridesList := stridesList + [s];
      }
      assert td.fullStrides[..|td.fullStrides|] == td.fullStrides;
      r := Pick(stridesList, order);
    } else {
      r := Pick(td.strides, order);
    }
  }

  // ---------------------------------------------------------------------
  // get_flattened_axes, get_rotated_layout, get_ctypes_arg, get_arg_output_idx

  /** The name of the depth axis, which MKL-DNN does not see. */
  const DepthAxisName: string := "__NG_DEPTH"

  /** Keep the axes not named `name`, in order. */
  function WithoutName(axes: seq<Axis>, name: string): (r: seq<Axis>)
    ensures |r| <= |axes|
    ensures forall a :: a in r <==> a in axes && a.name != name
  {
    if axes == [] then []
    else
      var init := WithoutName(axes[..|axes| - 1], name);
      var last := axes[|axes| - 1];
      assert forall a :: a in axes <==> a in axes[..|axes| - 1] || a == last;
      if last.name != name then init + [last] else init
  }

  /**
   * `get_flattened_axes` (mkldnnpasses.py:155-159): the axes with each
   * flattened one expanded, minus the depth axis. `Axes.as_flattened_list`
   * is not part of this model; it is taken to expand each flattened axis
   * one level, in place.
   */
  function FlattenedAxes(axes: seq<Axis>): (r: seq<Axis>)
    ensures forall a :: a in r <==> a in Expand(axes) && a.name != DepthAxisName
  {
    WithoutName(Expand(axes), DepthAxisName)
  }

  /** The positions of the axes not named `name`, in increasing order. */
  function KeptPositions(axes: seq<Axis>, name: string): (r: seq<nat>)
    ensures forall k :: 0 <= k < |r| ==> r[k] < |axes| && axes[r[k]].name != name
    ensures forall i :: 0 <= i < |axes| && axes[i].name != name ==> i in r
    ensures forall k, l :: 0 <= k < l < |r| ==> r[k] < r[l]
  {
    if axes == [] then []
    else
      var init := KeptPositions(axes[..|axes| - 1], name);
      if axes[|axes| - 1].name != name then init + [|axes| - 1] else init
  }

  /**
   * `WithoutName` is a stable filter: it keeps the axes at `KeptPositions`,
   * each as often as it occurs and in its original order.
   */
  lemma {:induction false} WithoutNameGathers(axes: seq<Axis>, name: string)
    ensures WithoutName(axes, name) == Gather(axes, KeptPositions(axes, name))
  {
    if axes != [] {
      var init := axes[..|axes| - 1];
      var kept := KeptPositions(init, name);
      WithoutNameGathers(init, name);
      GatherPrefix(axes, |axes| - 1, kept);
      if axes[|axes| - 1].name != name {
        GatherSnoc(axes, kept, |axes| - 1);
      }
    }
  }

  /** `lst.index(x)`: the first position of `x`, or `ValueError`. */
  function IndexOf<T(==)>(s: seq<T>, x: T): (r: Result<nat, string>)
    ensures r.Success? <==> x in s
    ensures r.Success? ==> r.value < |s| && s[r.value] == x && forall j :: 0 <= j < r.value ==> s[j] != x
  {
    if s == [] then Failure("ValueError: not in list")
    else if s[0] == x then Success(0)
    else
      var rest := IndexOf(s[1..], x);
      if rest.Failure? then rest else Success(rest.value + 1)
  }

  /**
   * `permute_order = [from_axes.index(axis) for axis in to_axes]`
   * (mkldnnpasses.py:162-163): position `k` holds where `to_axes[k]` first
   * occurs in `from_axes`; it fails if some axis of `to_axes` is missing.
   */
  function PermuteOrder(fromAxes: seq<Axis>, toAxes: seq<Axis>): (r: Result<seq<nat>, string>)
    ensures r.Success? <==> forall k :: 0 <= k < |toAxes| ==> toAxes[k] in fromAxes
    ensures r.Success? ==> (|r.value| == |toAxes| &&
      forall k :: 0 <= k < |toAxes| ==>
        (r.value[k] < |fromAxes| && fromAxes[r.value[k]] == toAxes[k] &&
         forall j :: 0 <= j < r.value[k] ==> fromAxes[j] != toAxes[k]))
  {
    if toAxes == [] then Success([])
    else
      var init := PermuteOrder(fromAxes, toAxes[..|toAxes| - 1]);
      var last := IndexOf(fromAxes, toAxes[|toAxes| - 1]);
      if init.Failure? then init
      else if last.Failure? then Failure(last.error)
      else Success(init.value + [last.value])
  }

  /** Permuting a list of distinct axes to itself is the identity. */
  lemma PermuteOrderIdentity(axes: seq<Axis>)
    requires Distinct(axes)
    ensures PermuteOrder(axes, axes).Success?
    ensures forall k :: 0 <= k < |axes| ==> PermuteOrder(axes, axes).value[k] == k
  {
    var r := PermuteOrder(axes, axes);
    forall k | 0 <= k < |axes| ensures r.value[k] == k
    {

    }
  }

  /** A C `int`: the low 32 bits of an integer, read as two's complement. */
  function ToCInt(x: int): (r: int)
    ensures -0x8000_0000 <= r < 0x8000_0000
    ensures (r - x) % 0x1_0000_0000 == 0
  {
    var m := x % 0x1_0000_0000;
    if m >= 0x8000_0000 then m - 0x1_0000_0000 else m
  }

  /**
   * `get_ctypes_arg(x)` (mkldnnpasses.py:151-152): `None` for an empty list,
   * and otherwise a C `int` array holding each element wrapped to 32 bits.
   */
  function CtypesArg(x: seq<int>): (r: Option<seq<int>>)
    ensures r.None? <==> x == []
    ensures r.Some? ==> (|r.value| == |x| &&
      forall i :: 0 <= i < |x| ==>
        (r.value[i] == ToCInt(x[i]) && (-0x8000_0000 <= x[i] < 0x8000_0000 ==> r.value[i] == x[i])))
  {
    if x == [] then None else Some(seq(|x|, i requires 0 <= i < |x| => ToCInt(x[i])))
  }

  /** An output declaration of an exop: the exops that use it as an input. */
  datatype OutputDecl = OutputDecl(userExops: seq<nat>)

  /**
   * `get_arg_output_idx(exop, arg_exop)` (mkldnnpasses.py:168-175): the
   * position of the first output of `arg_exop` that `exop` reads, or 0 when
   * it reads none.
   */
  method ArgOutputIdx(exop: nat, argOutputDecls: seq<OutputDecl>) returns (idx: nat)
    ensures (exists i :: 0 <= i < |argOutputDecls| && exop in argOutputDecls[i].userExops) ==>
      idx < |argOutputDecls| && exop in argOutputDecls[idx].userExops &&
      forall j :: 0 <= j < idx ==> exop !in argOutputDecls[j].userExops
    ensures (forall i :: 0 <= i < |argOutputDecls| ==> exop !in argOutputDecls[i].userExops) ==> idx == 0
  {
    for i := 0 to |argOutputDecls|
      invariant forall j :: 0 <= j < i ==> exop !in argOutputDecls[j].userExops
    {
      var users := argOutputDecls[i].userExops;
      for k := 0 to |users|
        invariant forall m :: 0 <= m < k ==> users[m] != exop
      {
        if users[k] == exop {
          return i;
        }
      }
    }
    return 0;
  }
}
