/**
 * The two MKL-DNN graph passes (mkldnnpasses.py:176-997) and the state they
 * share: the table of kernels by op name and the table of MKL layouts by op
 * name. `MklCreateOpDescriptors` makes kernels for the ops MKL-DNN supports
 * and propagates layouts through index and meta ops; `MklAddLayoutConversions`
 * puts a reorder op in front of every consumer that cannot read an MKL
 * layout. The MKL-DNN library calls are not part of this model: a kernel is
 * known by its id, a layout by an opaque handle, and a layout the library
 * produces for a kernel's output is a parameter.
 */
module MklPasses {
  import opened Wrappers
  import opened SeqUtil
  import opened OpGraph
  import opened MklAxes

  /**
   * An op's name. The reorder op made for op `n` is named `ReorderOf(n)`,
   * a name distinct from every other op's.
   */
  datatype Name = OpName(s: string) | ReorderOf(source: Name)

  /** An `op_layouts` entry: the MKL layout handle and the op's axes in MKL order. */
  datatype Layout = Layout(handle: nat, axes: seq<Axis>)

  /** The MKL-DNN engine state both passes update (`mkldnn.kernels`, `mkldnn.op_layouts`). */
  class MklDnn {
    /** The id each op's kernel was created with. */
    var kernels: map<Name, nat>
    var opLayouts: map<Name, Layout>
    /** The ops in the order their kernels were created. */
    ghost var created: seq<Name>

    /** Kernel `i` is the `i`-th one created: the ids are exactly 0, 1, ..., `|kernels| - 1`. */
    ghost predicate Valid()
      reads this
    {
      |kernels| == |created| &&
      (forall i :: 0 <= i < |created| ==> created[i] in kernels && kernels[created[i]] == i) &&
      (forall n :: n in kernels ==> kernels[n] < |created| && created[kernels[n]] == n)
    }

    constructor ()
      ensures Valid()
      ensures kernels == map[] && opLayouts == map[] && created == []
    {
      kernels := map[];
      opLayouts := map[];
      created := [];
    }

    /**
     * `op_id = len(kernels); kernels[n] = create_empty_kernel(op_id)`
     * (mkldnnpasses.py:315-316, 875-876): the new kernel's id is the number
     * of kernels before it.
     */
    method AddKernel(n: Name)
      requires Valid() && n !in kernels
      modifies this
      ensures Valid()
      ensures kernels == old(kernels)[n := |old(kernels)|]
      ensures created == old(created) + [n]
      ensures opLayouts == old(opLayouts)
    {
      kernels := kernels[n := |kernels|];
      created := created + [n];
    }
  }

  // ---------------------------------------------------------------------
  // MklCreateOpDescriptors: layout propagation

  /** An op as the layout-propagating visits see it: its name and axes. */
  datatype Tensor = Tensor(name: Name, axes: seq<Axis>)

  /**
   * The layout an op gets from its argument's layout when its axes relabel
   * the argument's: the argument's MKL axes are found by name among the
   * argument's axes, and the op's axes at those positions become the op's
   * MKL axes (mkldnnpasses.py:808-810, 824-826).
   */
  function Relabelled(l: Layout, argAxes: seq<Axis>, opAxes: seq<Axis>): (r: Result<Layout, string>)
    ensures r.Success? ==> r.value.handle == l.handle
    ensures OrderFromAxesSpec(argAxes, l.axes).Failure? ==> r.Failure?
  {
    var order := OrderFromAxesSpec(argAxes, l.axes);
    if order.Failure? then Failure(order.error)
    else
      var newAxes := AxesMklOrderSpec(opAxes, order.value);
      if newAxes.Failure? then Failure(newAxes.error) else Success(Layout(l.handle, newAxes.value))
  }

  /**
   * When the argument's axis names are distinct, every MKL axis is found
   * and no op axis is flattened, the op's `k`-th MKL axis is the op axis at
   * the position where the argument has the `k`-th MKL axis's name.
   */
  lemma RelabelledPositions(l: Layout, argAxes: seq<Axis>, opAxes: seq<Axis>)
    requires forall i, j :: 0 <= i < j < |argAxes| ==> argAxes[i].name != argAxes[j].name
    requires AllPresent(argAxes, l.axes)
    requires |opAxes| == |argAxes|
    requires forall i :: 0 <= i < |opAxes| ==> !IsFlattened(opAxes[i])
    ensures Relabelled(l, argAxes, opAxes).Success?
    ensures var r := Relabelled(l, argAxes, opAxes).value;
      |r.axes| == |l.axes| &&
      forall k :: 0 <= k < |l.axes| ==>
        exists i :: 0 <= i < |argAxes| && argAxes[i].name == l.axes[k].name && r.axes[k] == opAxes[i]
  {
    OrderFromAxesFails(argAxes, l.axes);
    OrderFromAxesDistinct(argAxes, l.axes);
    var order := OrderFromAxesSpec(argAxes, l.axes).value;
    AxesMklOrderPlain(opAxes, order);
    var r := Relabelled(l, argAxes, opAxes).value;
    forall k | 0 <= k < |l.axes|
      ensures exists i :: 0 <= i < |argAxes| && argAxes[i].name == l.axes[k].name && r.axes[k] == opAxes[i]
    {
      assert r.axes[k] == opAxes[order[k]];
    }
  }

  /** The kinds of op `MklCreateOpDescriptors` makes a kernel for. */
  datatype KernelKind =
    | Batchnorm | BpropBatchnorm | Convolution | BpropConv | UpdateConv
    | Relu | BpropRelu | Pooling | BpropPool | DotLowDimension | AddOp

  /** An argument of a kernel op: its name, its axes, and, when it is a `Flatten`, the axes it unflattens to. */
  datatype ArgInfo = ArgInfo(name: Name, axes: seq<Axis>, unflattened: Option<seq<Axis>>)

  /**
   * A kernel op: what its visit reads. `poolJ`/`poolT` are the pooling
   * window's depth and time extents; `forward` is `op.fprop.forwarded.name`,
   * the forward op of a backward op (read only by the `BpropBatchnorm` and
   * `BpropPool` visits).
   */
  datatype KernelOp = KernelOp(
    kind: KernelKind,
    name: Name,
    axes: seq<Axis>,
    isFloat32: bool,
    args: seq<ArgInfo>,
    poolJ: int,
    poolT: int,
    forward: Name)

  /** The number of arguments each visit's signature takes. */
  function Arity(kind: KernelKind): nat
  {
    match kind
    case Batchnorm => 6
    case BpropBatchnorm => 8
    case Convolution => 2
    case BpropConv => 2
    case UpdateConv => 2
    case Relu => 1
    case BpropRelu => 2
    case Pooling => 1
    case BpropPool => 1
    case DotLowDimension => 2
    case AddOp => 2
  }

  /** `axes.find_by_name('__NG_DEPTH').size`: the product of the depth axes' lengths (1 with none). */
  function DepthSize(axes: seq<Axis>): int
  {
    if axes == [] then 1
    else
      var last := axes[|axes| - 1];
      DepthSize(axes[..|axes| - 1]) * (if last.name == DepthAxisName then last.length else 1)
  }

  /** Without a depth axis the depth size is 1. */
  lemma {:induction false} DepthSizeNoDepth(axes: seq<Axis>)
    requires forall i :: 0 <= i < |axes| ==> axes[i].name != DepthAxisName
    ensures DepthSize(axes) == 1
  {
    if axes != [] {
      DepthSizeNoDepth(axes[..|axes| - 1]);
    }
  }

  /** The order `[4, 0, 2, 3]` MKL-DNN reads (N, C, H, W) from five (C, D, H, W, N) axes. */
  const NCHW_ORDER: seq<nat> := [4, 0, 2, 3]
  /** The order `[1, 0]` for two axes. */
  const SWAPPED_ORDER: seq<nat> := [1, 0]

  /** What a supported kernel op's visit does: the MKL order of its output axes, and whether it sets a layout. */
  datatype KernelPlan = KernelPlan(order: seq<nat>, setsLayout: bool)

  /**
   * The support guards of the kernel visits: `None` when the visit returns
   * without making a kernel, and otherwise the order its output axes are
   * put in. For `Add` the order depends on `x`'s layout, which `xLayout`
   * gives (the layout the op-layouts table holds for `x`).
   */
  function Plan(k: KernelOp, xLayout: Option<Layout>): (r: Result<Option<KernelPlan>, string>)
    requires |k.args| >= Arity(k.kind)
    ensures r.Success? && r.value.Some? ==> k.isFloat32
    ensures r.Success? && r.value.Some? ==> (r.value.value.setsLayout <==> !k.kind.UpdateConv?)
    ensures r.Failure? ==> k.kind.Batchnorm? || k.kind.AddOp?
  {
    match k.kind
    case Batchnorm =>
      // mkldnnpasses.py:274-292
      var inputs := k.args[0];
      var rank := if inputs.unflattened.Some? then |inputs.unflattened.value| else |inputs.axes|;
      if rank != 5 || !k.isFloat32 then Success(None)
      else if |inputs.axes| < 2 then Failure("IndexError: tuple index out of range")
      else if inputs.axes[1].length != 1 || inputs.axes[0].length % 8 != 0 then Success(None)
      else Success(Some(KernelPlan(NCHW_ORDER, true)))
    case BpropBatchnorm =>
      // mkldnnpasses.py:346-359: two axes are accepted when the second is
      // flattened from four
      if !k.isFloat32 then Success(None)
      else if |k.axes| == 2 then
        if IsFlattened(k.axes[1]) && |k.axes[1].parts| == 4 then Success(Some(KernelPlan(NCHW_ORDER, true)))
        else Success(None)
      else if |k.axes| != 5 then Success(None)
      else Success(Some(KernelPlan(NCHW_ORDER, true)))
    case Convolution =>
      // mkldnnpasses.py:451-457
      if DepthSize(k.args[0].axes) != 1 || !k.isFloat32 then Success(None)
      else Success(Some(KernelPlan(NCHW_ORDER, true)))
    case BpropConv =>
      // mkldnnpasses.py:484-490
      if DepthSize(k.args[0].axes) != 1 || !k.isFloat32 then Success(None)
      else Success(Some(KernelPlan(NCHW_ORDER, true)))
    case UpdateConv =>
      // mkldnnpasses.py:525-531; the output stays in the transformer's layout
      if DepthSize(k.args[0].axes) != 1 || !k.isFloat32 then Success(None)
      else Success(Some(KernelPlan(NCHW_ORDER, false)))
    case Relu =>
      // mkldnnpasses.py:568-579
      if !k.isFloat32 || (|k.axes| != 5 && |k.axes| != 2) then Success(None)
      else Success(Some(KernelPlan(if |k.axes| == 5 then NCHW_ORDER else SWAPPED_ORDER, true)))
    case BpropRelu =>
      // mkldnnpasses.py:595-608
      if !k.isFloat32 || (|k.axes| != 5 && |k.axes| != 2) then Success(None)
      else Success(Some(KernelPlan(if |k.axes| == 5 then NCHW_ORDER else SWAPPED_ORDER, true)))
    case Pooling =>
      // mkldnnpasses.py:626-636
      if DepthSize(k.args[0].axes) != 1 || k.poolJ != 1 || k.poolT != 1 || !k.isFloat32 || |k.axes| != 5
      then Success(None)
      else Success(Some(KernelPlan(NCHW_ORDER, true)))
    case BpropPool =>
      // mkldnnpasses.py:668-678
      if DepthSize(k.args[0].axes) != 1 || k.poolJ != 1 || k.poolT != 1 || !k.isFloat32 || |k.axes| != 5
      then Success(None)
      else Success(Some(KernelPlan(NCHW_ORDER, true)))
    case DotLowDimension =>
      // mkldnnpasses.py:710-718
      if |k.args[0].axes| != 2 || |k.args[1].axes| != 2 || !k.isFloat32 then Success(None)
      else Success(Some(KernelPlan(SWAPPED_ORDER, true)))
    case AddOp =>
      // mkldnnpasses.py:743-755: the order is where x's MKL axes sit among the op's axes
      if !k.isFloat32 || |k.args[0].axes| != 5 || |k.args[1].axes| != 5 || xLayout.None? then Success(None)
      else
        var order := OrderFromAxesSpec(k.axes, xLayout.value.axes);
        if order.Failure? then Failure(order.error) else Success(Some(KernelPlan(order.value, true)))
  }

  /** Relu is handled only in single precision, with two axes (order `[1, 0]`) or five (order `[4, 0, 2, 3]`). */
  lemma ReluGuard(k: KernelOp, xLayout: Option<Layout>)
    requires k.kind.Relu? && |k.args| >= 1
    ensures Plan(k, xLayout).Success?
    ensures Plan(k, xLayout).value.Some? <==> k.isFloat32 && (|k.axes| == 2 || |k.axes| == 5)
    ensures Plan(k, xLayout).value.Some? ==>
      Plan(k, xLayout).value.value.order == (if |k.axes| == 5 then [4, 0, 2, 3] else [1, 0])
  {
  }

  /** The order an `Add` kernel uses lists, for each of `x`'s MKL axes, the op axis with its name. */
  lemma AddOrderFindsAxes(k: KernelOp, xLayout: Option<Layout>)
    requires k.kind.AddOp? && |k.args| >= 2
    requires forall i, j :: 0 <= i < j < |k.axes| ==> k.axes[i].name != k.axes[j].name
    requires Plan(k, xLayout).Success? && Plan(k, xLayout).value.Some?
    ensures var order := Plan(k, xLayout).value.value.order;
      |order| == |xLayout.value.axes| &&
      forall j :: 0 <= j < |order| ==> order[j] < |k.axes| && k.axes[order[j]].name == xLayout.value.axes[j].name
  {
    OrderFromAxesDistinct(k.axes, xLayout.value.axes);
  }

  /** A read a kernel visit makes before it creates its kernel; each can raise. */
  datatype ShapeRead =
    | /** `axes.lengths[0]`. */
      FirstLength(axes: seq<Axis>)
    | /** `get_size_mkl_order(axes, order)` or `get_axes_mkl_order(axes, order)`. */
      MklOrderRead(axes: seq<Axis>, order: seq<nat>)
    | /** `get_op_shape_and_layout(arg, order)`, reached through `get_arg_shape_and_layout`. */
      ShapeAndLayout(arg: ArgInfo, order: seq<nat>)

  /** `Axes(a).is_equal_set(Axes(b))`: the two lists hold the same axes. */
  predicate SameAxisSet(a: seq<Axis>, b: seq<Axis>)
  {
    (forall x :: x in a ==> x in b) && (forall x :: x in b ==> x in a)
  }

  /**
   * The exception a read raises, if any. `get_op_shape_and_layout`
   * (mkldnnpasses.py:214-235) picks the arg's axes in MKL order, and, when
   * the arg has an MKL layout whose axes are not those, asserts that both
   * hold the same axes once flattened.
   */
  function ReadError(read: ShapeRead, opLayouts: map<Name, Layout>): Option<string>
  {
    match read
    case FirstLength(axes) =>
      if axes == [] then Some("IndexError: tuple index out of range") else None
    case MklOrderRead(axes, order) =>
      var picked := AxesMklOrderSpec(axes, order);
      if picked.Failure? then Some(picked.error) else None
    case ShapeAndLayout(arg, order) =>
      var picked := Pick(arg.axes, order);
      if picked.Failure? then Some(picked.error)
      else if arg.name in opLayouts && picked.value != opLayouts[arg.name].axes &&
              !SameAxisSet(FlattenedAxes(opLayouts[arg.name].axes), FlattenedAxes(picked.value))
      then Some("AssertionError")
      else None
  }

  /** The exception of the first read that raises, if any. */
  function FirstError(steps: seq<ShapeRead>, opLayouts: map<Name, Layout>): (e: Option<string>)
    ensures e.None? <==> forall i :: 0 <= i < |steps| ==> ReadError(steps[i], opLayouts).None?
  {
    if steps == [] then None
    else if ReadError(steps[0], opLayouts).Some? then ReadError(steps[0], opLayouts)
    else FirstError(steps[1..], opLayouts)
  }

  /** The exception raised is that of a read all of whose predecessors succeed. */
  lemma {:induction false} FirstErrorIsFirst(steps: seq<ShapeRead>, opLayouts: map<Name, Layout>)
    requires FirstError(steps, opLayouts).Some?
    ensures exists i :: (0 <= i < |steps| && FirstError(steps, opLayouts) == ReadError(steps[i], opLayouts) &&
      forall j :: 0 <= j < i ==> ReadError(steps[j], opLayouts).None?)
  {
    if ReadError(steps[0], opLayouts).None? {
      FirstErrorIsFirst(steps[1..], opLayouts);
      var i :| 0 <= i < |steps| - 1 && FirstError(steps[1..], opLayouts) == ReadError(steps[1..][i], opLayouts) &&
        (forall j :: 0 <= j < i ==> ReadError(steps[1..][j], opLayouts).None?);
      assert forall j :: 0 <= j < i + 1 ==> ReadError(steps[j], opLayouts).None? by {
        forall j | 0 <= j < i + 1 ensures ReadError(steps[j], opLayouts).None? {
          if j > 0 {
            assert steps[j] == steps[1..][j - 1];
          }
        }
      }
      assert steps[i + 1] == steps[1..][i];
    }
  }

  /**
   * The reads a supported kernel visit makes, in order, before it creates its
   * kernel; `order` is the plan's order. The layouts `BpropBatchnorm` builds
   * for `unflatten(delta)` and `unflatten(fprop_src)` are library calls and
   * are not part of this model.
   */
  function KernelReads(k: KernelOp, order: seq<nat>): seq<ShapeRead>
    requires |k.args| >= Arity(k.kind)
  {
    match k.kind
    case Batchnorm =>
      // mkldnnpasses.py:296-309: inputs, mean, gamma, bias, variance, outputs
      [MklOrderRead(k.args[0].axes, order), FirstLength(k.args[4].axes), FirstLength(k.args[1].axes),
       FirstLength(k.args[2].axes), FirstLength(k.args[5].axes), MklOrderRead(k.axes, order),
       ShapeAndLayout(k.args[0], order)]
    case BpropBatchnorm =>
      // mkldnnpasses.py:364-391: outputs, mean, variance, delta, gamma, bias
      [MklOrderRead(k.axes, NCHW_ORDER), FirstLength(k.args[6].axes), FirstLength(k.args[7].axes),
       MklOrderRead(k.args[0].axes, NCHW_ORDER), FirstLength(k.args[4].axes), FirstLength(k.args[5].axes),
       ShapeAndLayout(k.args[0], NCHW_ORDER)]
    case Convolution =>
      // mkldnnpasses.py:447-451; the bias, when given, is read with order `[0]`
      [ShapeAndLayout(k.args[0], NCHW_ORDER), ShapeAndLayout(k.args[1], NCHW_ORDER)] +
      (if |k.args| > 2 then [MklOrderRead(k.args[2].axes, [0])] else []) +
      [MklOrderRead(k.axes, NCHW_ORDER)]
    case BpropConv =>
      // mkldnnpasses.py:493-496
      [ShapeAndLayout(k.args[0], NCHW_ORDER), ShapeAndLayout(k.args[1], NCHW_ORDER), MklOrderRead(k.axes, NCHW_ORDER)]
    case UpdateConv =>
      // mkldnnpasses.py:536-539: the filter shape is the op's own
      [ShapeAndLayout(k.args[0], NCHW_ORDER), ShapeAndLayout(k.args[1], NCHW_ORDER),
       ShapeAndLayout(ArgInfo(k.name, k.axes, None), NCHW_ORDER)]
    case Relu =>
      // mkldnnpasses.py:576-581
      [ShapeAndLayout(k.args[0], order), MklOrderRead(k.axes, order)]
    case BpropRelu =>
      // mkldnnpasses.py:604-611
      [ShapeAndLayout(k.args[0], order), ShapeAndLayout(k.args[1], order), MklOrderRead(k.axes, order)]
    case Pooling =>
      // mkldnnpasses.py:642-644
      [ShapeAndLayout(k.args[0], NCHW_ORDER), MklOrderRead(k.axes, NCHW_ORDER)]
    case BpropPool =>
      // mkldnnpasses.py:683-685
      [ShapeAndLayout(k.args[0], NCHW_ORDER), MklOrderRead(k.axes, NCHW_ORDER)]
    case DotLowDimension =>
      // mkldnnpasses.py:720-723
      [ShapeAndLayout(k.args[0], [0, 1]), ShapeAndLayout(k.args[1], [1, 0]), MklOrderRead(k.axes, SWAPPED_ORDER)]
    case AddOp =>
      // mkldnnpasses.py:761-762
      [ShapeAndLayout(k.args[0], order), ShapeAndLayout(k.args[1], order)]
  }

  /** The backward visits that pass the forward op's kernel to the library. */
  predicate ReadsForwardKernel(kind: KernelKind)
  {
    kind.BpropBatchnorm? || kind.BpropPool?
  }

  /** The kernel table, the layout table, and what a visit returned. */
  datatype Visited = Visited(r: Result<(), string>, kernels: map<Name, nat>, opLayouts: map<Name, Layout>)

  /**
   * What a kernel visit settles before it makes its kernel: the exception it
   * raises, no kernel (an op MKL-DNN does not handle), or the plan with the
   * op's output axes in MKL order (computed only by a visit that records a
   * layout). The support guards come first, then the reads.
   */
  function Prepare(k: KernelOp, opLayouts: map<Name, Layout>): Result<Option<(KernelPlan, seq<Axis>)>, string>
    requires |k.args| >= Arity(k.kind)
  {
    var xLayout := if k.args[0].name in opLayouts then Some(opLayouts[k.args[0].name]) else None;
    var plan := Plan(k, xLayout);
    if plan.Failure? then Failure(plan.error)
    else if plan.value.None? then Success(None)
    else
      var p := plan.value.value;
      var err := FirstError(KernelReads(k, p.order), opLayouts);
      var outAxes := AxesMklOrderSpec(k.axes, p.order);
      if err.Some? then Failure(err.value)
      else if !p.setsLayout then Success(Some((p, [])))
      else if outAxes.Failure? then Failure(outAxes.error)
      else Success(Some((p, outAxes.value)))
  }

  /**
   * A kernel visit (mkldnnpasses.py:272-776) as the code is written: after
   * `Prepare`, the new kernel with the next id; the forward op's kernel for a
   * backward batchnorm or pooling op, which raises `KeyError` when the
   * forward op has none; then the layout the library produced (`produced`,
   * None when it reports none).
   */
  function KernelVisit(k: KernelOp, kernels: map<Name, nat>, opLayouts: map<Name, Layout>, produced: Option<nat>): Visited
    requires |k.args| >= Arity(k.kind)
  {
    Prepared(Prepare(k, opLayouts), k, kernels, opLayouts, produced)
  }

  /** The rest of a kernel visit, once `Prepare` has given `pre`. */
  function Prepared(pre: Result<Option<(KernelPlan, seq<Axis>)>, string>, k: KernelOp,
                    kernels: map<Name, nat>, opLayouts: map<Name, Layout>, produced: Option<nat>): Visited
  {
    if pre.Failure? then Visited(Failure(pre.error), kernels, opLayouts)
    else if pre.value.None? then Visited(Success(()), kernels, opLayouts)
    else
      var (p, outAxes) := pre.value.value;
      var kernels' := kernels[k.name := |kernels|];
      if ReadsForwardKernel(k.kind) && k.forward !in kernels' then
        Visited(Failure("KeyError"), kernels', opLayouts)
      else if p.setsLayout && produced.Some? then
        Visited(Success(()), kernels', opLayouts[k.name := Layout(produced.value, outAxes)])
      else
        Visited(Success(()), kernels', opLayouts)
  }

  /**
   * The `Batchnorm`, `BpropBatchnorm`, `DotLowDimension` and `Add` visits
   * compute their output axes only after the kernel is made
   * (mkldnnpasses.py:339, 427, 739, 776), but that cannot raise there: the
   * same axes were picked by an earlier read, or, for `Add`, the order holds
   * positions of the op's own axes. So `Prepare` may compute them first.
   */
  lemma {:induction false} OutAxesPickedEarlier(k: KernelOp, opLayouts: map<Name, Layout>)
    requires |k.args| >= Arity(k.kind)
    requires k.kind.Batchnorm? || k.kind.BpropBatchnorm? || k.kind.DotLowDimension? || k.kind.AddOp?
    ensures var xLayout := if k.args[0].name in opLayouts then Some(opLayouts[k.args[0].name]) else None;
      var plan := Plan(k, xLayout);
      plan.Success? && plan.value.Some? && FirstError(KernelReads(k, plan.value.value.order), opLayouts).None? ==>
        AxesMklOrderSpec(k.axes, plan.value.value.order).Success?
  {
    var xLayout := if k.args[0].name in opLayouts then Some(opLayouts[k.args[0].name]) else None;
    var plan := Plan(k, xLayout);
    if plan.Success? && plan.value.Some? && FirstError(KernelReads(k, plan.value.value.order), opLayouts).None? {
      var order := plan.value.value.order;
      var steps := KernelReads(k, order);
      if k.kind.Batchnorm? {
        assert ReadError(steps[5], opLayouts).None?;
      } else if k.kind.BpropBatchnorm? {
        assert ReadError(steps[0], opLayouts).None?;
      } else if k.kind.DotLowDimension? {
        assert ReadError(steps[2], opLayouts).None?;
      } else {
        assert forall j :: 0 <= j < |order| ==> order[j] < |k.axes|;
        if |order| > 2 {
          assert |Expand(k.axes)| >= |k.axes|;
        }
      }
    }
  }

  /**
   * A visit either leaves the kernel table alone or adds the op's kernel
   * with the next id, and it changes no layout but the op's own.
   */
  lemma {:induction false} KernelVisitFrame(k: KernelOp, kernels: map<Name, nat>, opLayouts: map<Name, Layout>, produced: Option<nat>)
    requires |k.args| >= Arity(k.kind)
    ensures var v := KernelVisit(k, kernels, opLayouts, produced);
      (v.kernels == kernels || v.kernels == kernels[k.name := |kernels|]) &&
      (forall n :: n in v.opLayouts ==> n in opLayouts || n == k.name) &&
      forall n :: n in opLayouts && n != k.name ==> v.opLayouts[n] == opLayouts[n]
  {
    PreparedFrame(Prepare(k, opLayouts), k, kernels, opLayouts, produced);
  }

  /** `KernelVisitFrame`, whatever `Prepare` gave. */
  lemma PreparedFrame(pre: Result<Option<(KernelPlan, seq<Axis>)>, string>, k: KernelOp,
                      kernels: map<Name, nat>, opLayouts: map<Name, Layout>, produced: Option<nat>)
    ensures var v := Prepared(pre, k, kernels, opLayouts, produced);
      (v.kernels == kernels || v.kernels == kernels[k.name := |kernels|]) &&
      (forall n :: n in v.opLayouts ==> n in opLayouts || n == k.name) &&
      forall n :: n in opLayouts && n != k.name ==> v.opLayouts[n] == opLayouts[n]
  {
  }

  /**
   * A visit raises after creating its kernel exactly when it is a backward
   * batchnorm or pooling op whose forward op got no kernel: the guards of
   * those visits do not look at the forward op.
   */
  lemma {:induction false} KernelVisitFailsLate(k: KernelOp, kernels: map<Name, nat>, opLayouts: map<Name, Layout>, produced: Option<nat>)
    requires |k.args| >= Arity(k.kind) && k.name !in kernels
    ensures var v := KernelVisit(k, kernels, opLayouts, produced);
      (v.r.Failure? && v.kernels != kernels) <==>
      (v.kernels != kernels && ReadsForwardKernel(k.kind) && k.forward !in kernels && k.forward != k.name)
  {
  }

  /** The five axes (C, D, H, W, N) of a batch of two 4x4 images with 12 channels. */
  function TwelveChannelAxes(): seq<Axis>
  {
    [Axis("C", 12, []), Axis("D", 1, []), Axis("H", 4, []), Axis("W", 4, []), Axis("N", 2, [])]
  }

  /** A forward batchnorm op over `TwelveChannelAxes()`, named "fprop". */
  function TwelveChannelFprop(): KernelOp
  {
    var image := ArgInfo(OpName("image"), TwelveChannelAxes(), None);
    var channel := ArgInfo(OpName("param"), [Axis("C", 12, [])], None);
    KernelOp(Batchnorm, OpName("fprop"), TwelveChannelAxes(), true,
      [image, channel, channel, channel, channel, channel], 1, 1, OpName("fprop"))
  }

  /** The backward op of `TwelveChannelFprop()`, named "bprop". */
  function TwelveChannelBprop(): KernelOp
  {
    var image := ArgInfo(OpName("image"), TwelveChannelAxes(), None);
    var channel := ArgInfo(OpName("param"), [Axis("C", 12, [])], None);
    KernelOp(BpropBatchnorm, OpName("bprop"), TwelveChannelAxes(), true,
      [image, image, channel, channel, channel, channel, channel, channel], 1, 1, OpName("fprop"))
  }

  /** The forward batchnorm op with 12 channels gets no kernel: the channels must be a multiple of 8. */
  lemma TwelveChannelFpropDeclined()
    ensures KernelVisit(TwelveChannelFprop(), map[], map[], Some(0)) == Visited(Success(()), map[], map[])
  {
    assert Plan(TwelveChannelFprop(), None) == Success(None);
  }

  /** The backward op passes its own guards and its reads: it is prepared for a kernel. */
  lemma TwelveChannelBpropPrepared()
    ensures Prepare(TwelveChannelBprop(), map[]).Success?
    ensures Prepare(TwelveChannelBprop(), map[]).value.Some?
  {
    var k := TwelveChannelBprop();
    ExpandUnflattened(k.axes);
    assert Plan(k, None) == Success(Some(KernelPlan(NCHW_ORDER, true)));
    var steps := KernelReads(k, NCHW_ORDER);
    assert forall i :: 0 <= i < |steps| ==> ReadError(steps[i], map[]).None?;
  }

  /**
   * So it creates its kernel, and then raises `KeyError` looking up the
   * forward op's kernel, leaving its own kernel in the table.
   */
  lemma TwelveChannelBpropRaisesLate()
    ensures KernelVisit(TwelveChannelBprop(), map[], map[], Some(0)) ==
      Visited(Failure("KeyError"), map[OpName("bprop") := 0], map[])
  {
    TwelveChannelBpropPrepared();
    assert OpName("fprop") != OpName("bprop");
  }

  /**
   * The visit as evidently intended: a backward batchnorm or pooling op
   * whose forward op got no kernel is left alone, as the visits leave every
   * op MKL-DNN does not handle.
   */
  function KernelVisitChecked(k: KernelOp, kernels: map<Name, nat>, opLayouts: map<Name, Layout>, produced: Option<nat>): Visited
    requires |k.args| >= Arity(k.kind)
  {
    if ReadsForwardKernel(k.kind) && k.forward !in kernels then Visited(Success(()), kernels, opLayouts)
    else KernelVisit(k, kernels, opLayouts, produced)
  }

  /** The intended visit raises only before it changes anything. */
  lemma {:induction false} KernelVisitCheckedAtomic(k: KernelOp, kernels: map<Name, nat>, opLayouts: map<Name, Layout>, produced: Option<nat>)
    requires |k.args| >= Arity(k.kind) && k.name !in kernels
    ensures var v := KernelVisitChecked(k, kernels, opLayouts, produced);
      v.r.Failure? ==> v.kernels == kernels && v.opLayouts == opLayouts
  {
  }

  /**
   * The intended visit differs from the written one only for a backward op
   * whose forward op has no kernel, and there it changes nothing.
   */
  lemma {:induction false} KernelVisitCheckedAgrees(k: KernelOp, kernels: map<Name, nat>, opLayouts: map<Name, Layout>, produced: Option<nat>)
    requires |k.args| >= Arity(k.kind)
    ensures var v := KernelVisitChecked(k, kernels, opLayouts, produced);
      v != KernelVisit(k, kernels, opLayouts, produced) ==>
        ReadsForwardKernel(k.kind) && k.forward !in kernels && v == Visited(Success(()), kernels, opLayouts)
  {
  }

  /** The visits of `MklCreateOpDescriptors` (mkldnnpasses.py:176-838). */
  class MklCreateOpDescriptors {
    const mkldnn: MklDnn

    constructor (m: MklDnn)
      ensures mkldnn == m
    {
      mkldnn := m;
    }

    /**
     * The visits of `ContiguousOp` and `ReorderAxes` (mkldnnpasses.py:780-784,
     * 814-818): the op takes its argument's layout when it has one, and
     * nothing changes otherwise.
     */
    method VisitCopyLayout(op: Name, arg: Name)
      modifies mkldnn
      ensures mkldnn.kernels == old(mkldnn.kernels)
      ensures arg in old(mkldnn.opLayouts) ==>
        mkldnn.opLayouts == old(mkldnn.opLayouts)[op := old(mkldnn.opLayouts)[arg]]
      ensures arg !in old(mkldnn.opLayouts) ==> mkldnn.opLayouts == old(mkldnn.opLayouts)
    {
      if arg in mkldnn.opLayouts {
        mkldnn.opLayouts := mkldnn.opLayouts[op := mkldnn.opLayouts[arg]];
      }
    }

    /**
     * The visit of `MapRolesOp` (mkldnnpasses.py:805-812): the op's layout is
     * its argument's, relabelled to the op's axes. "Axis not found" or an
     * index out of range leaves the tables as they were.
     */
    method VisitMapRoles(op: Tensor, arg: Tensor) returns (r: Result<(), string>)
      modifies mkldnn
      ensures mkldnn.kernels == old(mkldnn.kernels)
      ensures arg.name !in old(mkldnn.opLayouts) ==> r.Success? && mkldnn.opLayouts == old(mkldnn.opLayouts)
      ensures arg.name in old(mkldnn.opLayouts) ==>
        var l := Relabelled(old(mkldnn.opLayouts)[arg.name], arg.axes, op.axes);
        (r.Success? <==> l.Success?) &&
        (l.Success? ==> mkldnn.opLayouts == old(mkldnn.opLayouts)[op.name := l.value]) &&
        (l.Failure? ==> mkldnn.opLayouts == old(mkldnn.opLayouts))
    {
      if arg.name in mkldnn.opLayouts {
        var l := mkldnn.opLayouts[arg.name];
        var order := OrderFromAxes(arg.axes, l.axes);
        if order.Failure? {
          return Failure(order.error);
        }
        var newAxes := AxesMklOrder(op.axes, order.value);
        if newAxes.Failure? {
          return Failure(newAxes.error);
        }
        mkldnn.opLayouts := mkldnn.opLayouts[op.name := Layout(l.handle, newAxes.value)];
      }
      r := Success(());
    }

    /**
     * The visits of `Flatten` and `Unflatten` (mkldnnpasses.py:820-838): as
     * for `MapRolesOp`, but only when the op has as many axes as its
     * argument.
     */
    method VisitFlatten(op: Tensor, arg: Tensor) returns (r: Result<(), string>)
      modifies mkldnn
      ensures mkldnn.kernels == old(mkldnn.kernels)
      ensures (arg.name !in old(mkldnn.opLayouts) || |arg.axes| != |op.axes|) ==>
        r.Success? && mkldnn.opLayouts == old(mkldnn.opLayouts)
      ensures arg.name in old(mkldnn.opLayouts) && |arg.axes| == |op.axes| ==>
        var l := Relabelled(old(mkldnn.opLayouts)[arg.name], arg.axes, op.axes);
        (r.Success? <==> l.Success?) &&
        (l.Success? ==> mkldnn.opLayouts == old(mkldnn.opLayouts)[op.name := l.value]) &&
        (l.Failure? ==> mkldnn.opLayouts == old(mkldnn.opLayouts))
    {
      if arg.name in mkldnn.opLayouts && |arg.axes| == |op.axes| {
        r := VisitMapRoles(op, arg);
      } else {
        r := Success(());
      }
    }

    /**
     * The kernel visits (mkldnnpasses.py:272-776), as `KernelVisit`
     * describes them: a raise after the new kernel is made leaves it in the
     * table.
     */
    method VisitKernel(k: KernelOp, produced: Option<nat>) returns (r: Result<(), string>)
      requires |k.args| >= Arity(k.kind)
      requires mkldnn.Valid() && k.name !in mkldnn.kernels
      modifies mkldnn
      ensures mkldnn.Valid()
      ensures Visited(r, mkldnn.kernels, mkldnn.opLayouts) ==
        KernelVisit(k, old(mkldnn.kernels), old(mkldnn.opLayouts), produced)
    {
      var xLayout := if k.args[0].name in mkldnn.opLayouts then Some(mkldnn.opLayouts[k.args[0].name]) else None;
      var plan := Plan(k, xLayout);
      if plan.Failure? {
        return Failure(plan.error);
      }
      if plan.value.None? {
        return Success(());
      }
      var p := plan.value.value;
      var err := FirstError(KernelReads(k, p.order), mkldnn.opLayouts);
      if err.Some? {
        return Failure(err.value);
      }
      var outAxes: seq<Axis> := [];
      if p.setsLayout {
        var picked := AxesMklOrder(k.axes, p.order);
        if picked.Failure? {
          return Failure(picked.error);
        }
        outAxes := picked.value;
      }
      mkldnn.AddKernel(k.name);
      if ReadsForwardKernel(k.kind) && k.forward !in mkldnn.kernels {
        return Failure("KeyError");
      }
      if p.setsLayout && produced.Some? {
        mkldnn.opLayouts := mkldnn.opLayouts[k.name := Layout(produced.value, outAxes)];
      }
      r := Success(());
    }

    /** The visit as evidently intended: it declines a backward op whose forward op has no kernel. */
    method VisitKernelChecked(k: KernelOp, produced: Option<nat>) returns (r: Result<(), string>)
      requires |k.args| >= Arity(k.kind)
      requires mkldnn.Valid() && k.name !in mkldnn.kernels
      modifies mkldnn
      ensures mkldnn.Valid()
      ensures Visited(r, mkldnn.kernels, mkldnn.opLayouts) ==
        KernelVisitChecked(k, old(mkldnn.kernels), old(mkldnn.opLayouts), produced)
      ensures r.Failure? ==> mkldnn.kernels == old(mkldnn.kernels) && mkldnn.opLayouts == old(mkldnn.opLayouts)
    {
      if ReadsForwardKernel(k.kind) && k.forward !in mkldnn.kernels {
        return Success(());
      }
      r := VisitKernel(k, produced);
      KernelVisitCheckedAtomic(k, old(mkldnn.kernels), old(mkldnn.opLayouts), produced);
    }
  }

  // ---------------------------------------------------------------------
  // MklAddLayoutConversions

  /** `MklReorderOp(op, in_layout=..., out_layout=None)`. */
  datatype ReorderOp = ReorderOp(name: Name, source: Name, inLayout: Layout)

  /** The op kinds the conversion visits tell apart. */
  datatype OpKind = FlattenKind | UnflattenKind | ReorderAxesKind | ContiguousKind | MapRolesKind | MklReorderKind | OtherKind

  /** An op the conversion pass visits: its name, kind and arguments. */
  datatype GraphOp = GraphOp(name: Name, kind: OpKind, args: seq<Name>)

  /** What a visit asks of the graph: nothing, the op rebuilt with new arguments, or the op replaced by another. */
  datatype Rewrite = Keep | ReplaceArgs(newArgs: seq<Name>) | ReplaceBy(target: Name)

  /**
   * `is_mkl_pass_through` (mkldnnpasses.py:903-907): an index op that
   * carries an MKL layout. The layout on the op's output declaration is
   * taken to be its `op_layouts` entry.
   */
  predicate PassThrough(opLayouts: map<Name, Layout>, op: GraphOp)
  {
    (op.kind.FlattenKind? || op.kind.UnflattenKind? || op.kind.ReorderAxesKind? || op.kind.ContiguousKind?) &&
    op.name in opLayouts
  }

  /** Some argument carries an MKL layout. */
  predicate NeedsConversion(opLayouts: map<Name, Layout>, args: seq<Name>)
  {
    exists i :: 0 <= i < |args| && args[i] in opLayouts
  }

  /** An argument with an MKL layout is read through its reorder op instead. */
  function Converted(opLayouts: map<Name, Layout>, a: Name): Name
  {
    if a in opLayouts then ReorderOf(a) else a
  }

  /** The arguments of an op after conversion, position by position. */
  function ConvertedArgs(opLayouts: map<Name, Layout>, args: seq<Name>): (r: seq<Name>)
    ensures |r| == |args|
    ensures forall i :: 0 <= i < |args| ==> r[i] == Converted(opLayouts, args[i])
  {
    seq(|args|, i requires 0 <= i < |args| => Converted(opLayouts, args[i]))
  }

  /** No reorder op has an MKL layout of its own. */
  predicate NoReorderLayouts(opLayouts: map<Name, Layout>)
  {
    forall n :: n in opLayouts ==> !n.ReorderOf?
  }

  /**
   * Converting changes the arguments exactly when one carries a layout, and
   * afterwards none does, so converting again changes nothing.
   */
  lemma ConvertedArgsSettled(opLayouts: map<Name, Layout>, args: seq<Name>)
    requires NoReorderLayouts(opLayouts)
    ensures ConvertedArgs(opLayouts, args) != args <==> NeedsConversion(opLayouts, args)
    ensures !NeedsConversion(opLayouts, ConvertedArgs(opLayouts, args))
    ensures ConvertedArgs(opLayouts, ConvertedArgs(opLayouts, args)) == ConvertedArgs(opLayouts, args)
  {
    var c := ConvertedArgs(opLayouts, args);
    if NeedsConversion(opLayouts, args) {
      var i :| 0 <= i < |args| && args[i] in opLayouts;
      assert c[i] == ReorderOf(args[i]) != args[i];
    }
    assert forall i :: 0 <= i < |c| ==> c[i] !in opLayouts;
  }

  /** What the generic, `ContiguousOp`, `MapRolesOp` and `MklReorderOp` visits ask of the graph. */
  function VisitResult(opLayouts: map<Name, Layout>, kernels: map<Name, nat>, op: GraphOp): Result<Rewrite, string>
  {
    match op.kind
    case ContiguousKind =>
      // mkldnnpasses.py:933-942
      if |op.args| != 1 then Failure("TypeError: visit() takes 3 positional arguments")
      else if op.args[0] in opLayouts then
        if op.name in opLayouts then Success(ReplaceBy(op.args[0])) else Failure("AssertionError")
      else if op.args[0].ReorderOf? then Success(ReplaceBy(op.args[0]))
      else Success(Keep)
    case MapRolesKind => Success(Keep)
    case MklReorderKind => Success(Keep)
    case _ =>
      // mkldnnpasses.py:909-931
      if op.name in kernels || PassThrough(opLayouts, op) then Success(Keep)
      else if NeedsConversion(opLayouts, op.args) then Success(ReplaceArgs(ConvertedArgs(opLayouts, op.args)))
      else Success(Keep)
  }

  /** Ops that have a kernel, and index ops carrying a layout, are never rewritten by the generic visit. */
  lemma KernelOpsUntouched(opLayouts: map<Name, Layout>, kernels: map<Name, nat>, op: GraphOp)
    requires !op.kind.ContiguousKind? && !op.kind.MapRolesKind? && !op.kind.MklReorderKind?
    requires op.name in kernels || PassThrough(opLayouts, op)
    ensures VisitResult(opLayouts, kernels, op) == Success(Keep)
  {
  }

  /** A rewritten op reads every layout-carrying argument through its reorder op and the others as before. */
  lemma RewriteKeepsPositions(opLayouts: map<Name, Layout>, kernels: map<Name, nat>, op: GraphOp)
    requires NoReorderLayouts(opLayouts)
    requires VisitResult(opLayouts, kernels, op).Success? && VisitResult(opLayouts, kernels, op).value.ReplaceArgs?
    ensures var newArgs := VisitResult(opLayouts, kernels, op).value.newArgs;
      |newArgs| == |op.args| && newArgs != op.args &&
      (forall i :: 0 <= i < |op.args| ==>
        (op.args[i] in opLayouts ==> newArgs[i] == ReorderOf(op.args[i])) &&
        (op.args[i] !in opLayouts ==> newArgs[i] == op.args[i])) &&
      !NeedsConversion(opLayouts, newArgs)
  {
    ConvertedArgsSettled(opLayouts, op.args);
  }

  /** A `ComputationOp` whose `returns` and control dependencies the conversion pass rewrites. */
  class ComputationOp {
    var outputs: ReturnsDecl<Name>
    var controlDeps: set<Name>

    constructor (r: ReturnsDecl<Name>, deps: set<Name>)
      ensures outputs == r && controlDeps == deps
    {
      outputs := r;
      controlDeps := deps;
    }
  }

  /** A return after conversion: the reorder op of its forwarded op when that has a layout, else itself. */
  function ConvertedReturn(opLayouts: map<Name, Layout>, forwarded: Name -> Name, o: Name): Name
  {
    if forwarded(o) in opLayouts then ReorderOf(forwarded(o)) else o
  }

  function ConvertedReturns(opLayouts: map<Name, Layout>, forwarded: Name -> Name, ops: seq<Name>): (r: seq<Name>)
    ensures |r| == |ops|
    ensures forall i :: 0 <= i < |ops| ==> r[i] == ConvertedReturn(opLayouts, forwarded, ops[i])
  {
    seq(|ops|, i requires 0 <= i < |ops| => ConvertedReturn(opLayouts, forwarded, ops[i]))
  }

  /**
   * `ComputationOp.returns` after the visit (mkldnnpasses.py:952-981): a
   * single op is replaced by its reorder op; a list, tuple or OrderedSet
   * becomes a list converted position by position; a set becomes an
   * OrderedSet of the converted returns; anything else is kept.
   */
  function RewrittenReturns(opLayouts: map<Name, Layout>, forwarded: Name -> Name, decl: ReturnsDecl<Name>): ReturnsDecl<Name>
  {
    match decl
    case SingleOp(o) => if forwarded(o) in opLayouts then SingleOp(ReorderOf(forwarded(o))) else decl
    case OpSequence(ops) => OpSequence(ConvertedReturns(opLayouts, forwarded, ops))
    case OpOrderedSet(ops) => OpSequence(ConvertedReturns(opLayouts, forwarded, ops))
    case OpSet(ops) => OpOrderedSet(Dedup(ConvertedReturns(opLayouts, forwarded, ops)))
    case OtherReturns => decl
  }

  /** The reorder ops read by converting `ops`, one return at a time. */
  function DepsOf(opLayouts: map<Name, Layout>, forwarded: Name -> Name, ops: seq<Name>): set<Name>
  {
    if ops == [] then {}
    else
      var last := ops[|ops| - 1];
      DepsOf(opLayouts, forwarded, ops[..|ops| - 1]) +
        (if forwarded(last) in opLayouts then {ReorderOf(forwarded(last))} else {})
  }

  /** The forwarded ops whose reorder ops converting `ops` asks for, one return at a time. */
  function SourcesOf(opLayouts: map<Name, Layout>, forwarded: Name -> Name, ops: seq<Name>): set<Name>
  {
    if ops == [] then {}
    else
      var last := ops[|ops| - 1];
      SourcesOf(opLayouts, forwarded, ops[..|ops| - 1]) +
        (if forwarded(last) in opLayouts then {forwarded(last)} else {})
  }

  /**
   * The control dependencies added are exactly the reorder ops of the
   * returns whose forwarded op has a layout, and the reorder ops asked for
   * are exactly those returns' forwarded ops.
   */
  lemma {:induction false} DepsOfMembers(opLayouts: map<Name, Layout>, forwarded: Name -> Name, ops: seq<Name>)
    ensures forall x :: x in DepsOf(opLayouts, forwarded, ops) <==>
      exists i :: 0 <= i < |ops| && forwarded(ops[i]) in opLayouts && x == ReorderOf(forwarded(ops[i]))
    ensures forall x :: x in SourcesOf(opLayouts, forwarded, ops) <==>
      exists i :: 0 <= i < |ops| && forwarded(ops[i]) in opLayouts && x == forwarded(ops[i])
  {
    if ops != [] {
      var init := ops[..|ops| - 1];
      DepsOfMembers(opLayouts, forwarded, init);
      assert forall i :: 0 <= i < |init| ==> init[i] == ops[i];
    }
  }

  /** The reorder ops the visit adds as control dependencies. */
  function AddedDeps(opLayouts: map<Name, Layout>, forwarded: Name -> Name, decl: ReturnsDecl<Name>): set<Name>
  {
    match decl
    case SingleOp(o) => if forwarded(o) in opLayouts then {ReorderOf(forwarded(o))} else {}
    case OtherReturns => {}
    case _ => DepsOf(opLayouts, forwarded, decl.ops)
  }

  /** The forwarded ops whose reorder ops the visit asks for. */
  function ReorderedSources(opLayouts: map<Name, Layout>, forwarded: Name -> Name, decl: ReturnsDecl<Name>): set<Name>
  {
    match decl
    case SingleOp(o) => if forwarded(o) in opLayouts then {forwarded(o)} else {}
    case OtherReturns => {}
    case _ => SourcesOf(opLayouts, forwarded, decl.ops)
  }

  /**
   * The rewritten returns keep the declaration's shape and length, except
   * that a set becomes an OrderedSet (so equal conversions merge); every
   * return whose forwarded op has a layout is read through that op's
   * reorder op.
   */
  lemma RewrittenReturnsShape(opLayouts: map<Name, Layout>, forwarded: Name -> Name, decl: ReturnsDecl<Name>)
    ensures var r := RewrittenReturns(opLayouts, forwarded, decl);
      (decl.SingleOp? ==> (r.SingleOp? &&
        r.op == ConvertedReturn(opLayouts, forwarded, decl.op))) &&
      ((decl.OpSequence? || decl.OpOrderedSet?) ==> (r.OpSequence? && |r.ops| == |decl.ops| &&
        forall i :: 0 <= i < |decl.ops| ==> r.ops[i] == ConvertedReturn(opLayouts, forwarded, decl.ops[i]))) &&
      (decl.OpSet? ==> (r.OpOrderedSet? && Distinct(r.ops) && |r.ops| <= |decl.ops| &&
        forall x :: x in r.ops <==> exists i :: 0 <= i < |decl.ops| && x == ConvertedReturn(opLayouts, forwarded, decl.ops[i]))) &&
      (decl.OtherReturns? ==> r == decl)
  {
    if decl.OpSet? {
      var c := ConvertedReturns(opLayouts, forwarded, decl.ops);
      forall x | x in c
        ensures exists i :: 0 <= i < |decl.ops| && x == ConvertedReturn(opLayouts, forwarded, decl.ops[i])
      {
        var i :| 0 <= i < |c| && c[i] == x;
      }
    }
  }

  /**
   * When no declared return is itself a reorder op, a reorder op is added
   * as a control dependency exactly when it is among the rewritten returns.
   */
  lemma RewrittenDepsAreReturns(opLayouts: map<Name, Layout>, forwarded: Name -> Name, decl: ReturnsDecl<Name>)
    requires forall o :: o in DeclaredOps(decl) ==> !o.ReorderOf?
    ensures var r := RewrittenReturns(opLayouts, forwarded, decl);
      forall x :: x in AddedDeps(opLayouts, forwarded, decl) <==> (x.ReorderOf? && x in DeclaredOps(r))
  {
    var r := RewrittenReturns(opLayouts, forwarded, decl);
    if !decl.SingleOp? && !decl.OtherReturns? {
      var c := ConvertedReturns(opLayouts, forwarded, decl.ops);
      DepsOfMembers(opLayouts, forwarded, decl.ops);
      assert forall x :: x in DeclaredOps(r) <==> x in c;
      assert forall o :: o in decl.ops ==> !o.ReorderOf?;
      forall x: Name | x.ReorderOf? && x in c
        ensures x in AddedDeps(opLayouts, forwarded, decl)
      {
        var i :| 0 <= i < |c| && c[i] == x;
        assert forwarded(decl.ops[i]) in opLayouts;
      }
    }
  }

  /** The conversion pass's state: the memoised reorder ops by source op name (mkldnnpasses.py:840-896). */
  class MklAddLayoutConversions {
    const mkldnn: MklDnn
    var reorderOps: map<Name, ReorderOp>

    /**
     * Every cached reorder op reads its source's layout and has a kernel;
     * every reorder kernel belongs to a cached op; no reorder op has a
     * layout of its own.
     */
    ghost predicate Valid()
      reads this, mkldnn
    {
      mkldnn.Valid() &&
      NoReorderLayouts(mkldnn.opLayouts) &&
      (forall n :: n in reorderOps ==>
        n in mkldnn.opLayouts &&
        reorderOps[n] == ReorderOp(ReorderOf(n), n, mkldnn.opLayouts[n]) &&
        ReorderOf(n) in mkldnn.kernels) &&
      (forall k :: k in mkldnn.kernels && k.ReorderOf? ==> k.source in reorderOps)
    }

    /** `MklAddLayoutConversions.__init__`, run after the descriptor pass, before any reorder op exists. */
    constructor (m: MklDnn)
      requires m.Valid() && NoReorderLayouts(m.opLayouts)
      requires forall k :: k in m.kernels ==> !k.ReorderOf?
      ensures Valid()
      ensures mkldnn == m && reorderOps == map[]
    {
      mkldnn := m;
      reorderOps := map[];
    }

    /**
     * `get_reorder_op` (mkldnnpasses.py:886-896): the cached reorder op for
     * `n`, or a new one reading `n`'s layout, cached, with the next kernel
     * id. An op without a layout raises `KeyError` at the layout check.
     */
    method GetReorderOp(n: Name) returns (r: Result<ReorderOp, string>)
      requires Valid()
      modifies this, mkldnn
      ensures Valid()
      ensures mkldnn.opLayouts == old(mkldnn.opLayouts)
      ensures old(mkldnn.created) <= mkldnn.created
      ensures n in old(reorderOps) ==>
        r == Success(old(reorderOps)[n]) && reorderOps == old(reorderOps) && mkldnn.kernels == old(mkldnn.kernels)
      ensures n !in old(reorderOps) && n !in old(mkldnn.opLayouts) ==>
        r == Failure("KeyError") && reorderOps == old(reorderOps) && mkldnn.kernels == old(mkldnn.kernels)
      ensures n !in old(reorderOps) && n in old(mkldnn.opLayouts) ==>
        r == Success(ReorderOp(ReorderOf(n), n, old(mkldnn.opLayouts)[n])) &&
        reorderOps == old(reorderOps)[n := r.value] &&
        mkldnn.kernels == old(mkldnn.kernels)[ReorderOf(n) := |old(mkldnn.kernels)|]
    {
      if n in reorderOps {
        return Success(reorderOps[n]);
      }
      if n !in mkldnn.opLayouts {
        return Failure("KeyError");
      }
      var ro := ReorderOp(ReorderOf(n), n, mkldnn.opLayouts[n]);
      reorderOps := reorderOps[n := ro];
      mkldnn.AddKernel(ro.name);
      r := Success(ro);
    }

    /**
     * The visits of `MklAddLayoutConversions` other than `ComputationOp`'s
     * (mkldnnpasses.py:909-950): the rewrite they ask for, and a reorder op
     * cached for every argument the generic visit converts. Kernels are
     * only ever added, so existing kernels keep their ids.
     */
    method Visit(op: GraphOp) returns (r: Result<Rewrite, string>)
      requires Valid()
      modifies this, mkldnn
      ensures Valid()
      ensures r == VisitResult(old(mkldnn.opLayouts), old(mkldnn.kernels), op)
      ensures mkldnn.opLayouts == old(mkldnn.opLayouts)
      ensures r.Success? && r.value.ReplaceArgs? ==>
        forall a :: a in reorderOps <==> a in old(reorderOps) || (a in op.args && a in mkldnn.opLayouts)
      ensures !(r.Success? && r.value.ReplaceArgs?) ==> reorderOps == old(reorderOps) && unchanged(mkldnn)
      ensures old(mkldnn.created) <= mkldnn.created
    {
      var generic := !op.kind.ContiguousKind? && !op.kind.MapRolesKind? && !op.kind.MklReorderKind?;
      if !generic || op.name in mkldnn.kernels || PassThrough(mkldnn.opLayouts, op) ||
         !NeedsConversion(mkldnn.opLayouts, op.args) {
        return VisitResult(mkldnn.opLayouts, mkldnn.kernels, op);
      }
      var newArgs := ConvertArgs(op.args);
      r := Success(ReplaceArgs(newArgs));
    }

    /** The loop of the generic visit (mkldnnpasses.py:916-927): each argument with a layout is read through its reorder op. */
    method ConvertArgs(args: seq<Name>) returns (newArgs: seq<Name>)
      requires Valid()
      modifies this, mkldnn
      ensures Valid()
      ensures mkldnn.opLayouts == old(mkldnn.opLayouts)
      ensures newArgs == ConvertedArgs(mkldnn.opLayouts, args)
      ensures forall a :: a in reorderOps <==> a in old(reorderOps) || (a in args && a in mkldnn.opLayouts)
      ensures old(mkldnn.created) <= mkldnn.created
    {
      ghost var L, keys0 := mkldnn.opLayouts, reorderOps.Keys;
      newArgs := [];
      for i := 0 to |args|
        invariant Valid()
        invariant mkldnn.opLayouts == L
        invariant newArgs == ConvertedArgs(L, args[..i])
        invariant forall a :: a in reorderOps.Keys <==> a in keys0 || (a in args[..i] && a in L)
        invariant old(mkldnn.created) <= mkldnn.created
      {
        var arg := args[i];
        assert args[..i + 1] == args[..i] + [arg];
        ghost var keys := reorderOps.Keys;
        var x := ConvertArg(arg);
        newArgs := newArgs + [x];
        SeenStep(keys0, keys, reorderOps.Keys, args[..i], arg, L);
      }
      assert args[..|args|] == args;
    }

    /** One argument of the generic visit: read through its reorder op when it has a layout. */
    method ConvertArg(arg: Name) returns (x: Name)
      requires Valid()
      modifies this, mkldnn
      ensures Valid()
      ensures mkldnn.opLayouts == old(mkldnn.opLayouts)
      ensures old(mkldnn.created) <= mkldnn.created
      ensures x == Converted(mkldnn.opLayouts, arg)
      ensures reorderOps.Keys == old(reorderOps).Keys + (if arg in mkldnn.opLayouts then {arg} else {})
    {
      x := arg;
      if arg in mkldnn.opLayouts {
        var ro := GetReorderOp(arg);
        x := ro.value.name;
      }
    }

    /**
     * The visit of `ComputationOp` (mkldnnpasses.py:952-981): each return
     * whose forwarded op (`forwarded`, the graph's forwarding) has a layout
     * is replaced by that op's reorder op, which also becomes a control
     * dependency; the declaration's shape is kept as `RewrittenReturns`
     * says.
     */
    method VisitComputation(c: ComputationOp, forwarded: Name -> Name)
      requires Valid()
      modifies this, mkldnn, c
      ensures Valid()
      ensures mkldnn.opLayouts == old(mkldnn.opLayouts)
      ensures c.outputs == RewrittenReturns(mkldnn.opLayouts, forwarded, old(c.outputs))
      ensures c.controlDeps == old(c.controlDeps) + AddedDeps(mkldnn.opLayouts, forwarded, old(c.outputs))
      ensures reorderOps.Keys == old(reorderOps).Keys + ReorderedSources(mkldnn.opLayouts, forwarded, old(c.outputs))
      ensures old(mkldnn.created) <= mkldnn.created
    {
      ghost var L, decl := mkldnn.opLayouts, c.outputs;
      match c.outputs
      case SingleOp(o) =>
        var x := ConvertOne(c, o, forwarded);
        c.outputs := SingleOp(x);
        assert c.outputs == RewrittenReturns(L, forwarded, decl);
      case OpSequence(ops) =>
        var converted := ConvertList(c, ops, forwarded);
        c.outputs := OpSequence(converted);
        assert c.outputs == RewrittenReturns(L, forwarded, decl);
      case OpOrderedSet(ops) =>
        var converted := ConvertList(c, ops, forwarded);
        c.outputs := OpSequence(converted);
        assert c.outputs == RewrittenReturns(L, forwarded, decl);
      case OpSet(ops) =>
        var converted := ConvertSet(c, ops, forwarded);
        c.outputs := OpOrderedSet(converted);
        assert c.outputs == RewrittenReturns(L, forwarded, decl);
      case OtherReturns =>
    }

    /**
     * One return converted (mkldnnpasses.py:955-958, 963-968, 974-979): when its
     * forwarded op has a layout, it is replaced by that op's reorder op,
     * which also becomes a control dependency.
     */
    method ConvertOne(c: ComputationOp, o: Name, forwarded: Name -> Name) returns (x: Name)
      requires Valid()
      modifies this, mkldnn, c`controlDeps
      ensures Valid()
      ensures mkldnn.opLayouts == old(mkldnn.opLayouts)
      ensures old(mkldnn.created) <= mkldnn.created
      ensures x == ConvertedReturn(mkldnn.opLayouts, forwarded, o)
      ensures c.controlDeps == old(c.controlDeps) +
        (if forwarded(o) in mkldnn.opLayouts then {ReorderOf(forwarded(o))} else {})
      ensures reorderOps.Keys == old(reorderOps).Keys +
        (if forwarded(o) in mkldnn.opLayouts then {forwarded(o)} else {})
    {
      x := o;
      if forwarded(o) in mkldnn.opLayouts {
        var ro := GetReorderOp(forwarded(o));
        x := ro.value.name;
        c.controlDeps := c.controlDeps + {x};
      }
    }

    /**
     * The loop over a list, tuple or OrderedSet of returns
     * (mkldnnpasses.py:959-968): each return, converted, is appended to a
     * new list.
     */
    method ConvertList(c: ComputationOp, ops: seq<Name>, forwarded: Name -> Name) returns (out: seq<Name>)
      requires Valid()
      modifies this, mkldnn, c`controlDeps
      ensures Valid()
      ensures mkldnn.opLayouts == old(mkldnn.opLayouts)
      ensures out == ConvertedReturns(mkldnn.opLayouts, forwarded, ops)
      ensures c.controlDeps == old(c.controlDeps) + DepsOf(mkldnn.opLayouts, forwarded, ops)
      ensures reorderOps.Keys == old(reorderOps).Keys + SourcesOf(mkldnn.opLayouts, forwarded, ops)
      ensures old(mkldnn.created) <= mkldnn.created
    {
      ghost var L, deps0, keys0 := mkldnn.opLayouts, c.controlDeps, reorderOps.Keys;
      out := [];
      for i := 0 to |ops|
        invariant Valid()
        invariant mkldnn.opLayouts == L
        invariant out == ConvertedReturns(L, forwarded, ops[..i])
        invariant c.controlDeps == deps0 + DepsOf(L, forwarded, ops[..i])
        invariant reorderOps.Keys == keys0 + SourcesOf(L, forwarded, ops[..i])
        invariant old(mkldnn.created) <= mkldnn.created
      {
        ConvertStep(L, forwarded, ops, i);
        ghost var keys, deps := reorderOps.Keys, c.controlDeps;
        var x := ConvertOne(c, ops[i], forwarded);
        GrowsBy(keys0, SourcesOf(L, forwarded, ops[..i]), keys, reorderOps.Keys,
                if forwarded(ops[i]) in L then {forwarded(ops[i])} else {});
        GrowsBy(deps0, DepsOf(L, forwarded, ops[..i]), deps, c.controlDeps,
                if forwarded(ops[i]) in L then {ReorderOf(forwarded(ops[i]))} else {});
        out := out + [x];
      }
      assert ops[..|ops|] == ops;
    }

    /**
     * The loop over a set of returns (mkldnnpasses.py:969-979): each
     * return, converted, is added to a new OrderedSet, so a conversion
     * already there is not added again.
     */
    method ConvertSet(c: ComputationOp, ops: seq<Name>, forwarded: Name -> Name) returns (out: seq<Name>)
      requires Valid()
      modifies this, mkldnn, c`controlDeps
      ensures Valid()
      ensures mkldnn.opLayouts == old(mkldnn.opLayouts)
      ensures out == Dedup(ConvertedReturns(mkldnn.opLayouts, forwarded, ops))
      ensures c.controlDeps == old(c.controlDeps) + DepsOf(mkldnn.opLayouts, forwarded, ops)
      ensures reorderOps.Keys == old(reorderOps).Keys + SourcesOf(mkldnn.opLayouts, forwarded, ops)
      ensures old(mkldnn.created) <= mkldnn.created
    {
      ghost var L, deps0, keys0 := mkldnn.opLayouts, c.controlDeps, reorderOps.Keys;
      ghost var cv: seq<Name> := [];
      out := [];
      for i := 0 to |ops|
        invariant Valid()
        invariant mkldnn.opLayouts == L
        invariant cv == ConvertedReturns(L, forwarded, ops[..i])
        invariant out == Dedup(cv)
        invariant c.controlDeps == deps0 + DepsOf(L, forwarded, ops[..i])
        invariant reorderOps.Keys == keys0 + SourcesOf(L, forwarded, ops[..i])
        invariant old(mkldnn.created) <= mkldnn.created
      {
        ConvertStep(L, forwarded, ops, i);
        ghost var keys, deps := reorderOps.Keys, c.controlDeps;
        var x := ConvertOne(c, ops[i], forwarded);
        GrowsBy(keys0, SourcesOf(L, forwarded, ops[..i]), keys, reorderOps.Keys,
                if forwarded(ops[i]) in L then {forwarded(ops[i])} else {});
        GrowsBy(deps0, DepsOf(L, forwarded, ops[..i]), deps, c.controlDeps,
                if forwarded(ops[i]) in L then {ReorderOf(forwarded(ops[i]))} else {});
        DedupSnoc(cv, x);
        if x !in out {
          out := out + [x];
        }
        cv := cv + [x];
      }
      assert ops[..|ops|] == ops;
    }
  }

  /** The cached sources after one more argument: those before, and the argument when it has a layout. */
  lemma SeenStep(keys0: set<Name>, keys: set<Name>, keys': set<Name>, seen: seq<Name>, arg: Name,
                 L: map<Name, Layout>)
    requires forall a :: a in keys <==> a in keys0 || (a in seen && a in L)
    requires keys' == keys + (if arg in L then {arg} else {})
    ensures forall a :: a in keys' <==> a in keys0 || (a in seen + [arg] && a in L)
  {
  }

  /** `b == a + s` grows by `d` to `b'`: then `b' == a + (s + d)`. */
  lemma GrowsBy<T>(a: set<T>, s: set<T>, b: set<T>, b': set<T>, d: set<T>)
    requires b == a + s && b' == b + d
    ensures b' == a + (s + d)
  {
  }

  /** One more return converted: the list, the dependencies and the sources each grow by its part. */
  lemma ConvertStep(opLayouts: map<Name, Layout>, forwarded: Name -> Name, ops: seq<Name>, i: nat)
    requires i < |ops|
    ensures ConvertedReturns(opLayouts, forwarded, ops[..i + 1]) ==
      ConvertedReturns(opLayouts, forwarded, ops[..i]) + [ConvertedReturn(opLayouts, forwarded, ops[i])]
    ensures DepsOf(opLayouts, forwarded, ops[..i + 1]) == DepsOf(opLayouts, forwarded, ops[..i]) +
      (if forwarded(ops[i]) in opLayouts then {ReorderOf(forwarded(ops[i]))} else {})
    ensures SourcesOf(opLayouts, forwarded, ops[..i + 1]) == SourcesOf(opLayouts, forwarded, ops[..i]) +
      (if forwarded(ops[i]) in opLayouts then {forwarded(ops[i])} else {})
  {
    assert ops[..i + 1][..i] == ops[..i];
  }

  /** Asking twice for the same op's reorder op gives the same op and makes at most one kernel. */
  method GetReorderOpTwice(p: MklAddLayoutConversions, n: Name) returns (r1: Result<ReorderOp, string>, r2: Result<ReorderOp, string>)
    requires p.Valid()
    modifies p, p.mkldnn
    ensures r1 == r2
    ensures |p.mkldnn.kernels| <= |old(p.mkldnn.kernels)| + 1
    ensures r1.Success? ==> r1.value.source == n && r1.value.name == ReorderOf(n) && ReorderOf(n) in p.mkldnn.kernels
  {
    r1 := p.GetReorderOp(n);
    r2 := p.GetReorderOp(n);
  }
}
