# ngraph orchestration and layout bookkeeping, in Dafny

This project models three parts of the ngraph Python library and proves properties about them.

- **Heterogeneous transformer** (`ngraph/transformers/hetrtransform.py`). This part splits one computation across worker processes, one per device. The model covers:
  - choosing a worker's backend (`build_transformer`);
  - wrapping returns that are split across devices in a `ResultOp`;
  - running the placement passes on a growing op set;
  - cutting the whole graph into transport messages;
  - giving each worker its parameters and returns (`is_my_op`), its parameter positions (`param_idx`) and its return-slot map;
  - feeding the workers, merging their results and shaping them as declared (`__call__`);
  - the registry of child transformers and the `close` lifecycle.
- **MKL-DNN passes** (`ngraph/transformers/passes/mkldnnpasses.py`). The model covers:
  - the axis-order, size and stride helpers;
  - the canned memory-format classifier;
  - the engine state: kernels with sequential ids and the per-op layouts;
  - the descriptor pass's layout propagation and its support guards;
  - the conversion pass: its memoised reorder ops, its rewriting of arguments, and its rewriting of `ComputationOp.returns` and control dependencies.
- **Numpy transformer helpers** (`ununoctium/geon/transformers/nptransform.py`): `output_dim`, `check_caffe_compat`, `onehot` and `make_raw_buffer`.

## Modelling choices

**Ops and graphs.**
- An op is an id into an arena that holds its metadata: device id, transformer placement, and the split/replacement links.
- The reorder op the conversion pass makes for an op `n` is named `ReorderOf(n)`.
- Graph passes whose source is not part of this model are function parameters, applied in order: the device-assignment pass, the communication pass and `Op.all_op_references`. So are `add_edges` and the pid.

**State that the source updates in place** is modelled as classes with `modifies` frames:
- `HetrTransformer`;
- the MKL-DNN engine `MklDnn`, with its `kernels` and `op_layouts` dicts;
- the two pass objects;
- `ComputationOp`;
- the `onehot` output array.

Each loop in the source is a method with its loop invariants. Each method is proved equal to a specification function, and the lemmas are about that function.

**Python integer semantics** are written out:
- floor division (`PyInt.FloorDiv`);
- `int()` parsing of a device index (`Text.ParseInt`);
- numpy's negative indices in `onehot`;
- the 32-bit wrap of ctypes' `c_int` (`MklAxes.ToCInt`).

**Chunking follows the loop, not the constant's name.** The constant `_OPS_PER_MSG = 10` (hetrtransform.py:33) suggests at most 10 ops per message and ⌈N/10⌉ messages. The loop at hetrtransform.py:126 flushes after index `i` when `i != 0 and i % 10 == 0`, or at the last index. So:
- the first message holds up to 11 ops and later ones up to 10;
- there are ⌈(N−1)/10⌉ messages for N ≥ 2, and one for N = 1.

## Model

| member | source | states |
|---|---|---|
| HetrTransformerModel.BuildTransformer | ngraph/transformers/hetrtransform.py:37-55 | A name containing "cpu" gives the CPU backend, whatever else it contains. Otherwise a name containing "gpu" gives the GPU backend for the communicator's rank; this fails when the GPU transformer cannot be imported or there is no communicator. Any other name fails with "Unknown device!". |
| HetrTransformerModel.CpuCheckedFirst | ngraph/transformers/hetrtransform.py:43-48 | "gpu0cpu" is a CPU worker, because "cpu" is tested first; "gpu0" is the GPU worker of rank 3. |
| HetrTransformerModel.HetrTransformer.constructor | ngraph/transformers/hetrtransform.py:200-207 | A new transformer is open, owned by the given pid, and has no children. |
| HetrTransformerModel.HetrTransformer.RegisterTransformer | ngraph/transformers/hetrtransform.py:229-238 | A registered name is left untouched. A new name naming a device kind and ending in a device index is added once, at the end of the iteration order. Any other new name fails, and nothing is registered. |
| HetrTransformerModel.HetrTransformer.Transformer | ngraph/transformers/hetrtransform.py:249-251 | Succeeds exactly for a registered name, and returns that name's registered client. |
| HetrTransformerModel.HetrTransformer.SetupChildTransformers | ngraph/transformers/hetrtransform.py:240-247 | Each registered client gets the address of the server whose rank is its parsed device index. The set of names and their order are unchanged. |
| HetrTransformerModel.WithAddresses | ngraph/transformers/hetrtransform.py:242-245 | Visiting the registered names in order, each client is replaced by one with the same name and the address of the server whose rank is the name's device index. The set of names is unchanged. |
| HetrTransformerModel.HetrTransformer.Close | ngraph/transformers/hetrtransform.py:215-227 | Closing does nothing once closed, and nothing in a process other than the owner; in those cases `is_closed` is unchanged. Otherwise it appends the close calls of `CloseEvents` and marks the transformer closed. |
| HetrTransformerModel.CloseEventsOrdered | ngraph/transformers/hetrtransform.py:221-226 | Every child is asked to close its transformer before any child is closed. Each child gets each call exactly once. The launcher, then the base class, are closed last. |
| HetrTransformerModel.CloseTwice | ngraph/transformers/hetrtransform.py:215-227 | Closing twice in the owning process shuts the children down exactly once: close is idempotent. |
| Text.ParseIntDecimal | ngraph/transformers/hetrtransform.py:235 | `int()` reads back the decimal digits of any natural number. |
| Text.ParseInt | ngraph/transformers/hetrtransform.py:235 | `int(s)` succeeds exactly when `s`, stripped of surrounding whitespace, is an optional sign followed by digit groups joined by single underscores. Its value is the groups' value, negated for a leading '-'. |
| Text.ParseIntGroups | ngraph/transformers/hetrtransform.py:235 | Unsigned digit groups with nothing around them parse to their value. |
| Text.ParseIntRun | ngraph/transformers/hetrtransform.py:235 | An optional sign and a run of digits parse to the digits' value, negated exactly for '-'. |
| Text.ParseIntSigned | ngraph/transformers/hetrtransform.py:235 | A leading '-' negates the decimal rendering of `n`, and a leading '+' reads back `n`. |
| Text.ParseIntSurroundingSpace | ngraph/transformers/hetrtransform.py:235 | Whitespace before and after the literal does not change what `int()` returns, success or failure. |
| Text.ParseIntUnderscore | ngraph/transformers/hetrtransform.py:235 | One underscore between two runs of digits is accepted and does not change the value. |
| Text.DigitGroupsMeaning | ngraph/transformers/hetrtransform.py:235 | The recursive grammar `int()` accepts after the sign is exactly: non-empty, starting and ending with a digit, made of digits and underscores, with no two underscores in a row. |
| Text.TrimStartMeaning | ngraph/transformers/hetrtransform.py:235 | `str.strip` on the left drops exactly a run of leading whitespace: the result is a suffix of the input, every dropped character is whitespace, and the result does not start with whitespace. |
| Text.TrimEndMeaning | ngraph/transformers/hetrtransform.py:235 | The same on the right: a prefix of the input, dropping only whitespace, and not ending with whitespace. |
| HetrTransformerModel.DevIdIndex | ngraph/transformers/hetrtransform.py:235 | The device index after the three-letter kind is read with spaces around it allowed: "cpu 3" is device 3, like "cpu3". |
| HetrReturns.WrapSplitReturns | ngraph/transformers/hetrtransform.py:76-88 | Each requested return whose device id is a list is replaced, at the same position, by a fresh `ResultOp` on device 0 that `replaces_op` the original. The original is marked split, with `hetr_replaced_by` pointing to the wrapper. Every other return and every other op is unchanged, no other op is added, and the count is kept. |
| HetrReturns.WrapPrefixKept | ngraph/transformers/hetrtransform.py:78-88 | After `n` turns of the loop, the new returns have length `n`, and every return that is not split is kept at its position. |
| HetrReturns.WrapPrefixFrame | ngraph/transformers/hetrtransform.py:78-88 | The wrapping loop changes only split returns and adds only the wrappers of split returns, with ids `nextId + i`. |
| HetrReturns.WrapPrefixWrapped | ngraph/transformers/hetrtransform.py:78-88 | After `n` turns, every split return before `n` is wrapped and linked both ways with its wrapper. |
| HetrReturns.RunPasses | ngraph/transformers/hetrtransform.py:90-94 | The passes run in order from the op set `new_returns | parameters`. The graph and send nodes at the end are `ApplyPasses`'s. `opSets[k]` is exactly the op set pass `k` is handed in `PassTrace`. Each such set holds every new return and parameter and the send nodes handed to that pass, and contains every earlier set. |
| HetrReturns.PassTraceChain | ngraph/transformers/hetrtransform.py:91-94 | The first pass is handed the starting graph and send nodes, with the op set joined with those send nodes. Each later pass is handed what the pass before it produced, with the previous op set joined with the send nodes found so far. The last pass's output is the loop's result. |
| HetrReturns.PassTraceOps | ngraph/transformers/hetrtransform.py:91-94 | Every op set handed to a pass contains the starting op set, the send nodes handed with it, and every op set handed before it. |
| HetrComputation.TransformUndoesWrap | ngraph/transformers/hetrtransform.py:118 | Unwrapping each `ResultOp` to its argument gives back exactly the requested returns. |
| HetrComputation.WrappedReturnsAnswer | ngraph/transformers/hetrtransform.py:152-157 | Each new return, wrapped or not, answers for the requested return at its position in the slot map. |
| HetrComputation.LaunchPlan | ngraph/transformers/hetrtransform.py:104-105 | One process per node for the CPU default device; otherwise all processes on one node. |
| HetrChunking.ChunkWholeGraph | ngraph/transformers/hetrtransform.py:121-128 | The loop emits `ChunkCount(N)` messages. Message `k` holds exactly ops `Bound(k) .. min(Bound(k+1), N)` and the edges `add_edges` records for them. |
| HetrChunking.ChunkCountIsLeastCover | ngraph/transformers/hetrtransform.py:126-128 | For N > 0 the count is the least `m` whose bound reaches N; that is ⌈(N−1)/10⌉ for N ≥ 2, and 1 for N = 1. |
| HetrChunking.FlushAt | ngraph/transformers/hetrtransform.py:126 | The loop's flush test at index `i` holds exactly when `i + 1` ends the current message or the graph. |
| HetrChunking.ChunksReassemble | ngraph/transformers/hetrtransform.py:121-128 | Concatenating the messages' op lists reproduces the whole graph in order, each op once. |
| HetrChunking.ChunkSizes | ngraph/transformers/hetrtransform.py:126-128 | No message is empty; the first holds at most 11 ops, and every later one at most 10. |
| HetrChunking.ElevenOpsOneMessage | ngraph/transformers/hetrtransform.py:126 | 11 ops make one message, 12 make two, and an empty graph makes none. |
| HetrPartition.IsMyOpAsWritten | ngraph/transformers/hetrtransform.py:109-111 | As written: fails (`KeyError`) exactly for an op without a placement. |
| HetrPartition.IsMyOp | ngraph/transformers/hetrtransform.py:109-111 | Corrected: fails exactly for an op without a placement. |
| HetrPartition.IsMyOpAsWrittenOverlaps | ngraph/transformers/hetrtransform.py:109-111 | As written, an op placed on "cpu10" is also claimed by "cpu1"; the corrected test does not claim it. |
| HetrPartition.IsMyOpExclusive | ngraph/transformers/hetrtransform.py:109-111 | Corrected: an op placed on one transformer belongs to exactly that transformer. |
| HetrPartition.IsMyOpAsWrittenAgrees | ngraph/transformers/hetrtransform.py:109-111 | The test as written accepts all the corrected one accepts. The two differ only for a name that is a proper substring of the placement. |
| HetrPartition.Filter | ngraph/transformers/hetrtransform.py:132-133 | The order-preserving filter: its members are exactly the ops in the input that belong to the worker under the chosen `is_my_op`, the test as written or the corrected one. |
| HetrPartition.CorrectedFilterWithin | ngraph/transformers/hetrtransform.py:130-133 | Every op the corrected filter gives a worker, the filter as written gives it too. |
| HetrPartition.FiltersAgree | ngraph/transformers/hetrtransform.py:130-133 | When no op is placed on a transformer whose name properly contains the worker's name, the two filters give the same list. |
| HetrPartition.SharedAsWritten | ngraph/transformers/hetrtransform.py:130-133 | As written, an op placed on "cpu10" goes into the lists of both "cpu1" and "cpu10"; corrected, into "cpu10"'s alone. |
| HetrPartition.Positions | ngraph/transformers/hetrtransform.py:148-149 | `param_idx` is strictly increasing, holds only positions of the worker's parameters under the chosen test, and holds all of them. |
| HetrPartition.GatherPositions | ngraph/transformers/hetrtransform.py:148-149 | `[parameters[i] for i in param_idx]` equals the worker's filtered placeholders. |
| HetrPartition.SplitPerWorker | ngraph/transformers/hetrtransform.py:130-133 | For every worker, its placeholders and returns are the filters of the parameters and of all returns under the chosen test. |
| HetrPartition.SlotKey | ngraph/transformers/hetrtransform.py:154-157 | An unwrapped requested return keys its own slot. A send node that is not requested, and replaces nothing, gets none. Any key is a requested op. |
| HetrPartition.SlotsOfKeys | ngraph/transformers/hetrtransform.py:152-157 | The slot map's keys are exactly the requested ops that some local return answers for. |
| HetrPartition.ReturnSlots | ngraph/transformers/hetrtransform.py:152-157 | The loop builds `comp.returns`. Every key is requested, and every slot is below `len(t_returns[t])`. The slot is the last local return answering for that key. |
| HetrPartition.EveryRequestedHasSlot | ngraph/transformers/hetrtransform.py:152-157 | When every new return goes to some worker, every requested op has a slot with some worker. |
| HetrComputation.Build | ngraph/transformers/hetrtransform.py:63-158 | After the passes, each `TensorValueOp` parameter takes its state's metadata, which raises `IndexError` when it reads no state. The computation then fails with `KeyError` exactly when there is a worker and a parameter or return has no placement. Otherwise it records the declaration, the wrapped returns, the launch plan, the chunked whole graph and each worker's plan, all on the updated graph. Each plan uses the chosen `is_my_op`: `AsWritten` is the constructor as it stands, and `Corrected` is the intended partition. |
| HetrParameters.UpdateTensorValueOps | ngraph/transformers/hetrtransform.py:96-100 | The loop computes `CopyStatesRead`: turn by turn, a `TensorValueOp` parameter's metadata is updated from its first state's. Other parameters are left alone, and the first parameter that reads nothing raises `IndexError`. |
| HetrParameters.CopyFails | ngraph/transformers/hetrtransform.py:98-100 | The loop raises exactly when some parameter is a `TensorValueOp` with no state read. |
| HetrParameters.CopiedShape | ngraph/transformers/hetrtransform.py:98-100 | The loop adds no op and changes no op's kind or arguments. |
| HetrParameters.CopyFrame | ngraph/transformers/hetrtransform.py:98-100 | An op that is not a `TensorValueOp` parameter keeps its metadata. |
| HetrParameters.CopiedFromState | ngraph/transformers/hetrtransform.py:98-100 | When the states read are not themselves `TensorValueOp`s, each `TensorValueOp` parameter ends with its own metadata updated from its state's, however often it is listed. |
| HetrParameters.CopiedPlacement | ngraph/transformers/hetrtransform.py:96-100 | After the loop, a `TensorValueOp` parameter is placed exactly when it or its state was, and a placed state gives it the state's placement. |
| HetrGraph.UpdatedIdempotent | ngraph/transformers/hetrtransform.py:100 | `metadata.update` twice from the same dict is the same as once. |
| HetrGraph.UpdatedPlacement | ngraph/transformers/hetrtransform.py:100 | After `metadata.update`, the op is placed exactly when it or the source was; a placed source gives its placement. |
| HetrComputation.PlanChildren | ngraph/transformers/hetrtransform.py:139-158 | Each child transformer gets exactly its own placeholders, the ops it computes (its returns with `ResultOp`s unwrapped), the positions of its placeholders among the parameters and its return-slot map, all under the chosen `is_my_op`. No other child gets an entry. |
| HetrComputation.ChildPlanConsistent | ngraph/transformers/hetrtransform.py:148-157 | A worker's `param_idx` selects exactly its placeholders from the parameters. Its slot map keys only requested ops, at slots within its returns. |
| HetrComputation.MergeMeaning | ngraph/transformers/hetrtransform.py:173-175 | The merged results hold exactly the keys some child returned; the last child to return a key wins. |
| HetrComputation.Shape | ngraph/transformers/hetrtransform.py:176-183 | A single op gives its merged value. A sequence or OrderedSet gives a tuple of the same length, in declared order. A set gives the whole merged dict, and anything else gives None. A missing key raises. |
| HetrComputation.Call | ngraph/transformers/hetrtransform.py:161-183 | Each child is fed `[args[i] for i in param_idx]`, and too few arguments raise `IndexError`. The value is the merged results, shaped as declared. |
| HetrComputation.CallFindsEveryReturn | ngraph/transformers/hetrtransform.py:173-183 | When the children return exactly their slot maps' keys, and every requested op has a slot, shaping the result cannot fail. |
| OpGraph.DeclaredOps | ngraph/transformers/hetrtransform.py:70-74 | The ops a returns declaration names, without repeats: one op, the members of a collection, or none. |
| MklAxes.Pick | ngraph/transformers/passes/mkldnnpasses.py:71-73 | `[s[i] for i in idx]`, which raises `IndexError` exactly when some index is out of range. |
| MklAxes.IndicesNamed | ngraph/transformers/passes/mkldnnpasses.py:49-53 | The inner loop appends every index whose axis has the name, in increasing order, since it does not stop at the first. |
| MklAxes.OrderFromAxes | ngraph/transformers/passes/mkldnnpasses.py:45-56 | The loops compute `OrderFromAxesSpec`, and they succeed exactly when every sub-axis name occurs among the axes. |
| MklAxes.AppendNamed | ngraph/transformers/passes/mkldnnpasses.py:48-53 | The inner loop appends, in increasing order, every position whose axis has the sub-axis's name. It reports a match exactly when some axis has that name. |
| MklAxes.OrderFromAxesFails | ngraph/transformers/passes/mkldnnpasses.py:54-55 | "Axis not found" is raised exactly when some sub-axis name is missing. |
| MklAxes.OrderFromAxesDistinct | ngraph/transformers/passes/mkldnnpasses.py:45-56 | With distinct axis names, the order has one entry per sub-axis, and `axes[order[k]]` has `sub_axes[k]`'s name. |
| MklAxes.ExpandUnflattened | ngraph/transformers/passes/mkldnnpasses.py:62-69 | Without flattened axes, expanding changes nothing. |
| MklAxes.AxesMklOrderPlain | ngraph/transformers/passes/mkldnnpasses.py:59-73 | With at most two indices, or no flattened axis, the result is `[axes[i] for i in order]`. |
| MklAxes.AxesMklOrder | ngraph/transformers/passes/mkldnnpasses.py:59-73 | The loop computes `AxesMklOrderSpec`: flattened axes are expanded in place before indexing when the order has more than two entries. |
| MklAxes.SizeMklOrder | ngraph/transformers/passes/mkldnnpasses.py:76-77 | The lengths of the ordered axes, position by position, failing exactly when they fail. |
| MklAxes.StridesMklOrder | ngraph/transformers/passes/mkldnnpasses.py:80-95 | The loops compute `StridesMklOrderSpec`, with tuple strides spliced flat in the flattened case. Without flattened axes the result is `[strides[i] for i in order]`. |
| MklAxes.WithoutName | ngraph/transformers/passes/mkldnnpasses.py:159 | Keeps exactly the axes with another name, and never makes the list longer. |
| MklAxes.KeptPositions | ngraph/transformers/passes/mkldnnpasses.py:159 | The positions of the axes with another name: all of them, each in range, strictly increasing. |
| MklAxes.WithoutNameGathers | ngraph/transformers/passes/mkldnnpasses.py:159 | The comprehension is a stable filter: it is the list of the axes at `KeptPositions`, in their original order and with their repeats. |
| MklAxes.FlattenedAxes | ngraph/transformers/passes/mkldnnpasses.py:155-159 | An axis is in the result exactly when it is in the expanded list and is not '__NG_DEPTH'. |
| MklAxes.IndexOf | ngraph/transformers/passes/mkldnnpasses.py:163 | `list.index`: the first position holding the value, or `ValueError` exactly when it is absent. |
| MklAxes.PermuteOrder | ngraph/transformers/passes/mkldnnpasses.py:162-163 | `permute_order[k]` is the first position of `to_axes[k]` in `from_axes`. It fails exactly when some target axis is missing. |
| MklAxes.PermuteOrderIdentity | ngraph/transformers/passes/mkldnnpasses.py:162-163 | Permuting distinct axes to themselves gives the identity order. |
| MklAxes.ToCInt | ngraph/transformers/passes/mkldnnpasses.py:152 | `c_int` keeps a value congruent modulo 2^32, within the signed 32-bit range. |
| MklAxes.CtypesArg | ngraph/transformers/passes/mkldnnpasses.py:151-152 | `None` exactly for an empty list. Otherwise it gives an array of the same length whose entries are the values as `c_int`; values in range are kept. |
| MklAxes.ArgOutputIdx | ngraph/transformers/passes/mkldnnpasses.py:168-175 | The index of the first output declaration with a user input from `exop`, or 0 when there is none. |
| MklFormat.InsertDesc | ngraph/transformers/passes/mkldnnpasses.py:118 | Inserting into a descending list keeps it descending and adds exactly the one element. |
| MklFormat.SortDesc | ngraph/transformers/passes/mkldnnpasses.py:118 | `sorted(reverse=True)`: a descending permutation of the input. |
| MklFormat.NonIncreasingUnique | ngraph/transformers/passes/mkldnnpasses.py:118-122 | Two descending arrangements of the same values are equal, so the sort is determined. |
| MklFormat.SortDescEquals | ngraph/transformers/passes/mkldnnpasses.py:118-126 | Comparing the sorted strides with a rearrangement of them tests whether that rearrangement is descending. |
| MklFormat.SortFour | ngraph/transformers/passes/mkldnnpasses.py:116-122 | For four strides, `[C,H,W,N]` is the sort exactly when `C >= H >= W >= N`, and `[N,C,H,W]` is the sort exactly when `N >= C >= H >= W`. |
| MklFormat.CannedFormatMeaning | ngraph/transformers/passes/mkldnnpasses.py:114-127 | The classifier, in terms of the strides themselves: 'chwn' iff `C >= H >= W >= N`; else 'nchw' iff `N >= C >= H >= W`; two strides give 'nc' iff `N >= C`; and nothing is canned with formats off. |
| MklFormat.EqualStridesAreChwn | ngraph/transformers/passes/mkldnnpasses.py:118-122 | Equal strides pass both tests, and 'chwn' wins because it is tested first. |
| MklFormat.NativeLayout | ngraph/transformers/passes/mkldnnpasses.py:98-134 | The description has the sizes, the strides floor-divided by the element size, and the axes, all in MKL order, plus the canned format of those strides. It fails exactly when ordering the sizes or strides fails, or the element size is 0 and there is a stride to divide. |
| PyInt.FloorDiv | ngraph/transformers/passes/mkldnnpasses.py:110 | Python's `//`: the quotient rounded towards minus infinity, for either sign of the divisor. |
| PyInt.PyFloorDiv | ngraph/transformers/passes/mkldnnpasses.py:110 | `//` raises `ZeroDivisionError` exactly for a zero divisor. |
| MklPasses.MklDnn.AddKernel | ngraph/transformers/passes/mkldnnpasses.py:875-876 | The new kernel's id is the number of kernels before it, so the ids stay exactly 0, 1, …, `len(kernels) - 1`. |
| MklPasses.Relabelled | ngraph/transformers/passes/mkldnnpasses.py:808-810 | Relabelling keeps the layout handle, and fails when an MKL axis of the argument is not found. |
| MklPasses.RelabelledPositions | ngraph/transformers/passes/mkldnnpasses.py:805-812 | With distinct argument axis names, every MKL axis present and matching arity, relabelling succeeds. Each MKL axis becomes the op's axis at the argument axis's position. |
| MklPasses.DepthSizeNoDepth | ngraph/transformers/passes/mkldnnpasses.py:438 | Without a depth axis, the depth size is 1. |
| MklPasses.Plan | ngraph/transformers/passes/mkldnnpasses.py:272-776 | The support guards of each visit: only float32 ops get a kernel, and every kernel except the update-convolution sets the op's layout. Of the guards, only those of batchnorm and add can raise. The exceptions of the shape reads that follow are `Prepare`'s, and the forward-kernel lookup is `KernelVisit`'s. |
| MklPasses.ReluGuard | ngraph/transformers/passes/mkldnnpasses.py:568-579 | Relu gets a kernel exactly for float32 with 2 or 5 axes, with order `[4,0,2,3]` for 5 axes and `[1,0]` for 2. |
| MklPasses.AddOrderFindsAxes | ngraph/transformers/passes/mkldnnpasses.py:743-755 | Add's order has one entry per MKL axis of `x`, each the position of that axis among the op's axes. |
| MklPasses.MklCreateOpDescriptors.VisitCopyLayout | ngraph/transformers/passes/mkldnnpasses.py:814-818 | ReorderAxes and Contiguous copy the argument's layout to the op when it has one. Otherwise, and for the kernels always, nothing changes. |
| MklPasses.MklCreateOpDescriptors.VisitMapRoles | ngraph/transformers/passes/mkldnnpasses.py:805-812 | An argument with a layout gives the op that layout, relabelled to the op's axes. Without one, nothing changes. |
| MklPasses.MklCreateOpDescriptors.VisitFlatten | ngraph/transformers/passes/mkldnnpasses.py:820-838 | As for MapRoles, but only when argument and op have the same number of axes. |
| MklPasses.MklCreateOpDescriptors.VisitKernel | ngraph/transformers/passes/mkldnnpasses.py:272-776 | Its result and new tables are `KernelVisit`'s. An unsupported op changes nothing. A guard or a shape read that raises does so before the kernel exists, and changes nothing. Otherwise the op gets the next kernel id. A backward batchnorm or pooling op whose forward op has no kernel then raises `KeyError`, keeping its new kernel. Any other op except the update-convolution gets a layout with the produced handle and its MKL-ordered axes. |
| MklPasses.FirstError | ngraph/transformers/passes/mkldnnpasses.py:214-235 | The reads of a visit raise nothing exactly when no single read raises. |
| MklPasses.FirstErrorIsFirst | ngraph/transformers/passes/mkldnnpasses.py:214-235 | The exception raised is that of some read all of whose predecessors succeed. |
| MklPasses.OutAxesPickedEarlier | ngraph/transformers/passes/mkldnnpasses.py:272-776 | The batchnorm, backward batchnorm, dot and add visits compute their output axes after the kernel, but that cannot raise once the earlier reads succeeded. |
| MklPasses.KernelVisitFrame | ngraph/transformers/passes/mkldnnpasses.py:272-776 | A visit either leaves the kernel table alone or adds the op's kernel with the next id. It changes no layout but the op's own. |
| MklPasses.KernelVisitFailsLate | ngraph/transformers/passes/mkldnnpasses.py:397-423 | A visit raises after creating its kernel exactly when it is a backward batchnorm or pooling op whose forward op has no kernel. |
| MklPasses.TwelveChannelFpropDeclined | ngraph/transformers/passes/mkldnnpasses.py:290-292 | A forward batchnorm with 12 channels gets no kernel, because the channels are not a multiple of 8. |
| MklPasses.TwelveChannelBpropPrepared | ngraph/transformers/passes/mkldnnpasses.py:347-398 | Its backward op passes every guard and read of its own visit, which does not check the channels. |
| MklPasses.TwelveChannelBpropRaisesLate | ngraph/transformers/passes/mkldnnpasses.py:400-423 | As written, that backward visit registers its kernel and then raises `KeyError` looking up the forward op's kernel. |
| MklPasses.KernelVisitCheckedAtomic | ngraph/transformers/passes/mkldnnpasses.py:272-776 | Corrected: a visit that raises has changed neither table. |
| MklPasses.KernelVisitCheckedAgrees | ngraph/transformers/passes/mkldnnpasses.py:397-423 | The corrected visit differs from the written one only for a backward op whose forward op has no kernel, and there it changes nothing. |
| MklPasses.MklCreateOpDescriptors.VisitKernelChecked | ngraph/transformers/passes/mkldnnpasses.py:272-776 | Corrected visit: its result and tables are `KernelVisitChecked`'s, and when it raises both tables are unchanged. |
| MklPasses.ConvertedArgs | ngraph/transformers/passes/mkldnnpasses.py:918-928 | Position by position, an argument with a layout becomes its reorder op, and any other argument stays. |
| MklPasses.ConvertedArgsSettled | ngraph/transformers/passes/mkldnnpasses.py:918-931 | Conversion changes the arguments exactly when one has a layout. After it none has one, so converting again changes nothing. |
| MklPasses.KernelOpsUntouched | ngraph/transformers/passes/mkldnnpasses.py:912-917 | Ops with a kernel, and pass-through ops carrying a layout, are never rewritten. |
| MklPasses.RewriteKeepsPositions | ngraph/transformers/passes/mkldnnpasses.py:918-931 | A rewritten op has as many arguments as before and at least one changed. Layout arguments are replaced by their reorder ops and the rest kept, and none carries a layout afterwards. |
| MklPasses.MklAddLayoutConversions.constructor | ngraph/transformers/passes/mkldnnpasses.py:846-849 | The pass starts with no reorder ops cached. |
| MklPasses.MklAddLayoutConversions.GetReorderOp | ngraph/transformers/passes/mkldnnpasses.py:886-896 | A cached op is returned as is. Otherwise a new reorder op reading the source's layout is cached, with the next kernel id. An op without a layout raises `KeyError` and changes nothing. |
| MklPasses.GetReorderOpTwice | ngraph/transformers/passes/mkldnnpasses.py:886-896 | Asking twice for the same op's reorder op gives the same op and creates at most one kernel. |
| MklPasses.MklAddLayoutConversions.Visit | ngraph/transformers/passes/mkldnnpasses.py:905-950 | The visit asks for `VisitResult`. When it rewrites arguments, exactly the layout arguments' reorder ops are cached; otherwise nothing changes. |
| MklPasses.MklAddLayoutConversions.ConvertArgs | ngraph/transformers/passes/mkldnnpasses.py:918-928 | The loop yields `ConvertedArgs` and caches the reorder ops of exactly the layout arguments. |
| MklPasses.MklAddLayoutConversions.ConvertArg | ngraph/transformers/passes/mkldnnpasses.py:921-928 | One argument with a layout is replaced by its reorder op, cached under the argument's name; any other argument is kept and the cache is unchanged. |
| MklPasses.MklAddLayoutConversions.ConvertOne | ngraph/transformers/passes/mkldnnpasses.py:955-979 | A return whose forwarded op has a layout becomes that op's reorder op, which is added as a control dependency; any other return is kept. |
| MklPasses.MklAddLayoutConversions.ConvertList | ngraph/transformers/passes/mkldnnpasses.py:959-968 | The list loop yields the converted returns in order. It adds exactly their reorder ops as control dependencies and caches exactly their forwarded ops. |
| MklPasses.MklAddLayoutConversions.ConvertSet | ngraph/transformers/passes/mkldnnpasses.py:969-979 | The set loop yields the converted returns as an OrderedSet, in first-occurrence order, with the same dependencies and cache as the list loop. |
| MklPasses.MklAddLayoutConversions.VisitComputation | ngraph/transformers/passes/mkldnnpasses.py:952-981 | `returns` becomes `RewrittenReturns`, and the control dependencies and cached reorder ops grow by exactly the converted returns'. |
| MklPasses.DepsOfMembers | ngraph/transformers/passes/mkldnnpasses.py:962-977 | The added control dependencies are exactly the reorder ops of returns whose forwarded op has a layout; the cached sources are exactly those forwarded ops. |
| MklPasses.RewrittenReturnsShape | ngraph/transformers/passes/mkldnnpasses.py:952-981 | A single op stays single. A sequence or OrderedSet becomes a list of the same length, converted position by position. A set becomes a duplicate-free OrderedSet holding exactly the converted returns. Any other value is kept. |
| MklPasses.RewrittenDepsAreReturns | ngraph/transformers/passes/mkldnnpasses.py:952-981 | When no declared return is itself a reorder op, a reorder op becomes a control dependency exactly when it is among the rewritten returns. |
| NpTransform.CheckCaffeCompat | ununoctium/geon/transformers/nptransform.py:33-35 | Caffe compatibility is always off. |
| NpTransform.OutputDim | ununoctium/geon/transformers/nptransform.py:37-66 | A filter larger than the input raises `ValueError` before anything else. A zero stride raises `ZeroDivisionError`. A pooling window whose padding reaches its size raises `ValueError`. Otherwise, for a positive stride, `size` is the number of strides that fit: `(size-1)*strides <= X-S+2*padding < size*strides`. |
| NpTransform.OutputDimPositive | ununoctium/geon/transformers/nptransform.py:61 | With `X >= S`, non-negative padding and a positive stride, the size is at least 1. |
| NpTransform.OutputDimCountsWindows | ununoctium/geon/transformers/nptransform.py:61 | The size counts the window starts `0, strides, 2*strides, …` that leave room for the filter in the padded input. |
| NpTransform.MakeRawBuffer | ununoctium/geon/transformers/nptransform.py:86-96 | A fresh buffer of exactly `size` zero bytes. A negative size raises `ValueError`. |
| NpTransform.Placed | ununoctium/geon/transformers/nptransform.py:455-457 | The number of leading entries the loop writes before the first `IndexError`. |
| NpTransform.ColumnSumOneHot | ununoctium/geon/transformers/nptransform.py:455-457 | Each written column has exactly one 1, in row `x[i]`; a column not written has none. |
| NpTransform.OneHot | ununoctium/geon/transformers/nptransform.py:444-457 | On success: for each `i < len(x)`, `out[x[i], i] == 1` and the rest of column `i` is 0. Columns from `len(x)` on are all 0, and every cell is 0 or 1. An out-of-range entry raises `IndexError` and leaves the columns before it written. |

## Left out

- MPI launcher, RPC clients and futures: not modelled; these are process and network plumbing. A child is a record of its name and server address. `close` logs the calls it would make.
- Placement passes, `Op.all_op_references`, `op_to_protobuf` and `add_edges`: their source is not part of this model. They are function parameters, and the wire format of the chunks is left out.
- `os.getpid()`: a parameter of `Close` and of the constructor.
- `HetrTransformer.add_computation`, `make_computation` and the storage and transform hooks: not modelled; they only delegate to a new `HetrComputation` or to the base class.
- The `ReturnOp` visit of the conversion pass (exec-graph transformer only): not modelled.
- Calls into the MKL-DNN library are not modelled. These include layout creation, `layout_reorder`, kernel construction, `output_layout` and the reorder kernel's initialisation. Layout handles are natural numbers supplied by the caller, and a created kernel is recorded only by its id.
- The exop rewiring of `move_child_exops` and `replace_exop` is not modelled. The layout on an exop's output declaration is taken to be the op's `op_layouts` entry, so the first assertion of `get_op_shape_and_layout` (mkldnnpasses.py:221) is taken to hold. Its second assertion, on the flattened axis sets (mkldnnpasses.py:225-228), is modelled by `MklPasses.ReadError`.
- `MklPasses.KernelReads`: the backward batchnorm visit's `get_mkl_layout(unflatten(delta))` and `get_mkl_layout(unflatten(fprop_src))` (mkldnnpasses.py:384-389) call into the library and are not among the modelled reads, and neither is the native-layout fallback of `get_op_shape_and_layout`. Exceptions those library calls raise are not modelled.
- `get_mkl_layout`: modelled only as the argument layout (`Option<Layout>`) that `Plan` receives. Its native-layout fallback creates a library layout.
- `get_rotated_layout`: only its permutation (`PermuteOrder`) is modelled. The reorder it asks of the library is not.
- `MklPasses.Plan`: a visit is always called with the arguments its op type declares, so an op with fewer arguments than its visit's signature is not modelled (`requires |k.args| >= Arity(k.kind)`). The index errors, failed axis orders and assertions of the visit's shape reads are modelled by `MklPasses.Prepare`, and the `KeyError` of the forward-kernel lookup by `MklPasses.KernelVisit`.
- `Text.ParseInt`: Unicode decimal digits other than ASCII '0'-'9' are not accepted, although Python's `int()` reads them; device names are ASCII. The grammar is that of Python 3.6 and later, with underscores between digits.
- `HetrComputation.TransformOp`: a `ResultOp` with no arguments, where `o.args[0]` raises `IndexError` (hetrtransform.py:118), is returned as it is. Every `ResultOp` the constructor unwraps is one it made with one argument (hetrtransform.py:83).
- `MklAxes.Expand`: unflattening is one level deep, as `unflatten(axis).axes` of one flattened axis.
- The float `math.ceil` branch of `output_dim` is not modelled: it is unreachable, because `check_caffe_compat` is false.
- The numpy elementwise, reduction, `dot`, random-number and convolution wrappers of nptransform.py are not modelled: they are floating-point numerics over library calls.
- `NpTransform.OneHot`: `out` is modelled as a two-dimensional integer array; numpy dtypes and broadcasting are left out.
- `NpTransform.MakeRawBuffer`: only integer sizes are modelled; other argument types raise `TypeError` in Python.
- ngraph/frontends/neon/aeon_shim.py and ngraph/frontends/neon/tests/conftest.py are not part of this model: the first is a data-loader wrapper, the second holds test fixtures only.

## Findings

| source | as written | input that shows it | evidently intended | confidence | as-written member | corrected member |
|---|---|---|---|---|---|---|
| ngraph/transformers/hetrtransform.py:109-111 | `name == op_trans or name in op_trans` is a substring test when the placement is one transformer's name | an op placed on "cpu10", tested for worker "cpu1", is claimed by both workers | an op placed on one transformer belongs only to that transformer; list membership applies when it is placed on several | medium, not executed | HetrPartition.IsMyOpAsWrittenOverlaps, HetrPartition.SharedAsWritten | HetrPartition.IsMyOpExclusive, HetrPartition.CorrectedFilterWithin |
| ngraph/transformers/passes/mkldnnpasses.py:347-423 | the backward batchnorm visit checks neither the channel count nor whether the forward op got a kernel; it registers its own kernel, then reads `kernels[op.fprop.forwarded.name]`, which raises `KeyError` when the forward visit declined (the backward pooling visit, mkldnnpasses.py:667-704, reads the same entry) | a batchnorm over (C=12, D=1, H=4, W=4, N=2): the forward visit declines because 12 is not a multiple of 8, and the backward visit raises `KeyError` with its kernel left in the table | a backward op whose forward op has no MKL kernel is left to the default implementation, as every other unsupported op is | not executed | MklPasses.TwelveChannelBpropRaisesLate | MklPasses.KernelVisitChecked, MklPasses.KernelVisitCheckedAtomic |
