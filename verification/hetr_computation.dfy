/**
 * `HetrComputation`: building the per-child plan of a heterogeneous
 * computation (hetrtransform.py:63-158) and running it (hetrtransform.py:161-183).
 * The RPC clients, the MPI launcher and the serialisation of ops are not
 * part of this model: the whole-graph traversal and the edge writer are
 * parameters, and each child's results are given as a map.
 */
module HetrComputation {
  import opened Wrappers
  import opened SeqUtil
  import opened OpGraph
  import opened HetrGraph
  import opened HetrChunking
  import opened HetrReturns
  import opened HetrPartition
  import opened HetrParameters

  /**
   * `o.args[0] if isinstance(o, ResultOp) else o` (hetrtransform.py:118,142-143).
   * Every `ResultOp` here is one the wrapping loop made with `args=(op,)`
   * (hetrtransform.py:83, `ResultNode`), so `args[0]` exists; a `ResultOp`
   * without arguments, where `o.args[0]` would raise `IndexError`, is
   * returned as it is.
   */
  function TransformOp(arena: Arena, o: OpId): OpId
  {
    var m := Meta(arena, o);
    if m.kind == ResultOp && |m.args| > 0 then m.args[0] else o
  }

  function TransformOps(arena: Arena, ops: seq<OpId>): (r: seq<OpId>)
    ensures |r| == |ops|
    ensures forall i :: 0 <= i < |ops| ==> r[i] == TransformOp(arena, ops[i])
  {
    seq(|ops|, i requires 0 <= i < |ops| => TransformOp(arena, ops[i]))
  }

  /**
   * Unwrapping undoes wrapping: in the graph the wrapping loop leaves, the
   * ops handed to the children in place of the new returns are exactly the
   * requested returns, provided no requested return is itself a `ResultOp`.
   */
  lemma {:induction false} TransformUndoesWrap(arena: Arena, requested: seq<OpId>, nextId: OpId)
    requires Distinct(requested) && FreshAbove(arena, requested, nextId)
    requires forall i :: 0 <= i < |requested| ==> Meta(arena, requested[i]).kind == ComputeOp
    ensures var (w, r) := WrapPrefix(arena, requested, nextId, |requested|);
      TransformOps(w, r) == requested
  {
    var n := |requested|;
    var (w, r) := WrapPrefix(arena, requested, nextId, n);
    WrapPrefixFrame(arena, requested, nextId, n, w);
    WrapPrefixKept(arena, requested, nextId, n);
    WrapPrefixWrapped(arena, requested, nextId, n);
    forall i | 0 <= i < n ensures TransformOp(w, r[i]) == requested[i]
    {
      if !WrapsAt(arena, requested, i) {
        var x := requested[i];
        assert forall j :: 0 <= j < n && requested[j] == x ==> j == i;
        if x !in arena {
          assert x !in w;
        }
      }
    }
  }

  /**
   * In the graph the wrapping loop leaves, each new return answers for the
   * requested return at its position (hetrtransform.py:154-157), provided
   * no requested return was already marked as replaced.
   */
  lemma WrappedReturnsAnswer(arena: Arena, requested: seq<OpId>, nextId: OpId)
    requires Distinct(requested) && FreshAbove(arena, requested, nextId)
    requires forall i :: 0 <= i < |requested| ==> Meta(arena, requested[i]).replacedBy.None?
    ensures var (w, r) := WrapPrefix(arena, requested, nextId, |requested|);
      |r| == |requested| &&
      forall i :: 0 <= i < |requested| ==> SlotKey(w, requested, r[i]) == Some(requested[i])
  {
    var n := |requested|;
    var (w, r) := WrapPrefix(arena, requested, nextId, n);
    WrapPrefixKept(arena, requested, nextId, n);
    forall i | 0 <= i < n ensures SlotKey(w, requested, r[i]) == Some(requested[i])
    {
      WrappedReturnAnswersAt(arena, requested, nextId, w, r, i);
    }
  }

  /** `WrappedReturnsAnswer` at one position. */
  lemma WrappedReturnAnswersAt(arena: Arena, requested: seq<OpId>, nextId: OpId, w: Arena, r: seq<OpId>, i: nat)
    requires Distinct(requested) && FreshAbove(arena, requested, nextId)
    requires forall i :: 0 <= i < |requested| ==> Meta(arena, requested[i]).replacedBy.None?
    requires (w, r) == WrapPrefix(arena, requested, nextId, |requested|)
    requires i < |requested|
    ensures i < |r| && SlotKey(w, requested, r[i]) == Some(requested[i])
  {
    var n := |requested|;
    WrapPrefixFrame(arena, requested, nextId, n, w);
    WrapPrefixKept(arena, requested, nextId, n);
    WrapPrefixWrapped(arena, requested, nextId, n);
    if WrapsAt(arena, requested, i) {
      assert r[i] !in requested by {
        assert forall j :: 0 <= j < n ==> requested[j] < nextId <= r[i];
      }
    } else {
      var x := requested[i];
      assert !WrappedAmong(arena, requested, n, x) by {
        assert forall j :: 0 <= j < n && requested[j] == x ==> j == i;
      }
      if x !in arena {
        assert !IsWrapperAmong(arena, requested, nextId, n, x);
        assert x !in w;
      }
    }
  }

  /** How many worker processes to start and how many per node (hetrtransform.py:104-106). */
  datatype Launch = Launch(numProcess: nat, ppn: nat)

  /** What one child transformer is given and what it answers for. */
  datatype Child = Child(
    placeholders: seq<OpId>,
    transformOps: seq<OpId>,
    paramIdx: seq<nat>,
    slots: map<OpId, nat>)

  /** A prepared heterogeneous computation. */
  datatype Computation<E> = Computation(
    decl: ReturnsDecl<OpId>,
    requested: seq<OpId>,
    newReturns: seq<OpId>,
    launch: Launch,
    chunks: seq<Chunk<OpId, E>>,
    workers: seq<string>,
    children: map<string, Child>)

  /** The graph and the new returns once split returns are wrapped (hetrtransform.py:70-88). */
  function Wrapped(arena: Arena, decl: ReturnsDecl<OpId>, nextId: OpId): (Arena, seq<OpId>)
  {
    var requested := DeclaredOps(decl);
    WrapPrefix(arena, requested, nextId, |requested|)
  }

  /** The graph and send nodes once the passes have run (hetrtransform.py:91-94). */
  function AfterPasses(passes: seq<GraphPass>, arena: Arena, sendNodes: seq<OpId>, decl: ReturnsDecl<OpId>,
                       parameters: seq<OpId>, nextId: OpId): (Arena, seq<OpId>)
  {
    var (w, r) := Wrapped(arena, decl, nextId);
    ApplyPasses(passes, w, sendNodes, OrderedUnion(r, parameters))
  }

  /** `ppn = 1 if default_device == 'cpu' else num_process` (hetrtransform.py:104-105). */
  function LaunchPlan(defaultDevice: string, numProcess: nat): (l: Launch)
    ensures l.numProcess == numProcess
    ensures defaultDevice == "cpu" ==> l.ppn == 1
    ensures defaultDevice != "cpu" ==> l.ppn == numProcess
  {
    Launch(numProcess, if defaultDevice == "cpu" then 1 else numProcess)
  }

  /**
   * What child `w` is given, in the graph `a` after the passes: its
   * placeholders, the ops it computes, the positions of its placeholders
   * among the parameters and its return-slot map.
   */
  predicate ChildPlan(a: Arena, requested: seq<OpId>, parameters: seq<OpId>, allReturns: seq<OpId>,
                      w: string, test: OwnershipTest, ch: Child)
  {
    var tr := Filter(a, allReturns, w, test);
    ch.placeholders == Filter(a, parameters, w, test) &&
    ch.transformOps == TransformOps(a, tr) &&
    ch.paramIdx == Positions(a, parameters, w, test) &&
    ch.slots == SlotsOf(a, requested, tr, |tr|)
  }

  /**
   * The loops over the child transformers (hetrtransform.py:139-158): each
   * child gets its placeholders, the ops it computes, its `param_idx` and
   * its return-slot map.
   */
  method PlanChildren(a: Arena, requested: seq<OpId>, workers: seq<string>, parameters: seq<OpId>,
                      allReturns: seq<OpId>, test: OwnershipTest,
                      tPlaceholders: map<string, seq<OpId>>, tReturns: map<string, seq<OpId>>)
    returns (children: map<string, Child>)
    requires forall w :: w in workers ==>
      w in tPlaceholders && tPlaceholders[w] == Filter(a, parameters, w, test) &&
      w in tReturns && tReturns[w] == Filter(a, allReturns, w, test)
    ensures children.Keys == (set w | w in workers)
    ensures forall w :: w in workers ==> ChildPlan(a, requested, parameters, allReturns, w, test, children[w])
  {
    children := map[];
    for c := 0 to |workers|
      invariant children.Keys == (set w | w in workers[..c])
      invariant forall w :: w in workers[..c] ==> ChildPlan(a, requested, parameters, allReturns, w, test, children[w])
    {
      assert workers[..c + 1] == workers[..c] + [workers[c]];
      var w := workers[c];
      var slots := ReturnSlots(a, requested, tReturns[w]);
      var paramIdx := Positions(a, parameters, w, test);
      children := children[w := Child(tPlaceholders[w], TransformOps(a, tReturns[w]), paramIdx, slots)];
    }
    assert workers[..|workers|] == workers;
  }

  /**
   * `HetrComputation.__init__` (hetrtransform.py:63-158), leaving out the
   * launcher and the RPC calls. It fails with `IndexError` when a
   * `TensorValueOp` parameter reads nothing, and with `KeyError` when there
   * is a child and some parameter or return has no `transformer` metadata
   * once the parameters have their states' metadata. `test` is the
   * `is_my_op` the children are planned with: `AsWritten` is the
   * constructor as it stands, `Corrected` the intended partition.
   */
  method Build<E>(arena: Arena, sendNodes: seq<OpId>, decl: ReturnsDecl<OpId>, parameters: seq<OpId>,
                  passes: seq<GraphPass>, workers: seq<string>, test: OwnershipTest, defaultDevice: string, nextId: OpId,
                  allOpReferences: (Arena, seq<OpId>) -> seq<OpId>,
                  addEdges: (seq<E>, seq<OpId>, OpId) -> seq<E>)
    returns (r: Result<Computation<E>, string>)
    requires FreshAbove(arena, DeclaredOps(decl), nextId)
    requires Distinct(workers)
    ensures var (a, s) := AfterPasses(passes, arena, sendNodes, decl, parameters, nextId);
      var copied := CopyStatesRead(a, parameters);
      var allReturns := OrderedUnion(s, Wrapped(arena, decl, nextId).1);
      (copied.Failure? ==> r == Failure(copied.error)) &&
      (r.Failure? <==> copied.Failure? || (|workers| > 0 && !AllPlaced(copied.value, parameters + allReturns)))
    ensures r.Success? ==>
      var (a0, s) := AfterPasses(passes, arena, sendNodes, decl, parameters, nextId);
      var a := CopyStatesRead(a0, parameters).value;
      var allReturns := OrderedUnion(s, Wrapped(arena, decl, nextId).1);
      var whole := allOpReferences(a, TransformOps(a, allReturns) + parameters);
      var c := r.value;
      c.decl == decl && c.requested == DeclaredOps(decl) &&
      c.newReturns == Wrapped(arena, decl, nextId).1 &&
      c.launch == LaunchPlan(defaultDevice, |workers|) &&
      |c.chunks| == ChunkCount(|whole|) &&
      (forall k :: 0 <= k < |c.chunks| ==>
        c.chunks[k].ops == ChunkOps(whole, k) && c.chunks[k].edges == EdgesOf(addEdges, c.chunks[k].ops)) &&
      c.workers == workers &&
      c.children.Keys == (set w | w in workers) &&
      forall w :: w in workers ==> ChildPlan(a, c.requested, parameters, allReturns, w, test, c.children[w])
  {
    var requested := DeclaredOps(decl);
    var wrapped, newReturns := WrapSplitReturns(arena, requested, nextId);
    var passed, s, _ := RunPasses(passes, wrapped, sendNodes, newReturns, parameters);
    var copied := UpdateTensorValueOps(passed, parameters);
    if copied.Failure? {
      return Failure(copied.error);
    }
    var a := copied.value;
    var launch := LaunchPlan(defaultDevice, |workers|);
    var allReturns := OrderedUnion(s, newReturns);
    var whole := allOpReferences(a, TransformOps(a, allReturns) + parameters);
    var chunks := ChunkWholeGraph(whole, addEdges);
    if |workers| > 0 && !AllPlaced(a, parameters + allReturns) {
      return Failure("KeyError: 'transformer'");
    }
    var tPlaceholders, tReturns := SplitPerWorker(a, workers, parameters, allReturns, test);
    var children := PlanChildren(a, requested, workers, parameters, allReturns, test, tPlaceholders, tReturns);
    r := Success(Computation(decl, requested, newReturns, launch, chunks, workers, children));
  }

  /**
   * A child's planned `param_idx` picks out its placeholders from the
   * parameters, in order, and its slots index into its returns.
   */
  lemma ChildPlanConsistent(a: Arena, requested: seq<OpId>, parameters: seq<OpId>, allReturns: seq<OpId>,
                            w: string, test: OwnershipTest, ch: Child)
    requires ChildPlan(a, requested, parameters, allReturns, w, test, ch)
    ensures forall k :: 0 <= k < |ch.paramIdx| ==> ch.paramIdx[k] < |parameters|
    ensures Gather(parameters, ch.paramIdx) == ch.placeholders
    ensures forall k :: k in ch.slots ==> k in requested && ch.slots[k] < |ch.transformOps|
  {
    GatherPositions(a, parameters, w, test);
    var tr := Filter(a, allReturns, w, test);
    SlotsOfLast(a, requested, tr, |tr|);
  }

  /** What `__call__` returns (hetrtransform.py:176-183). */
  datatype CallResult<V> = Value(v: V) | Tuple(vs: seq<V>) | Dict(d: map<OpId, V>) | NoValue

  /** `return_vals.update(...)` over the children's results, in child order (hetrtransform.py:173-175). */
  function Merge<V>(results: seq<map<OpId, V>>): map<OpId, V>
  {
    if results == [] then map[] else Merge(results[..|results| - 1]) + results[|results| - 1]
  }

  /** A key is merged exactly when some child returns it, and the last such child's value wins. */
  lemma {:induction false} MergeMeaning<V>(results: seq<map<OpId, V>>)
    ensures forall k :: k in Merge(results) <==> exists c :: 0 <= c < |results| && k in results[c]
    ensures forall k, c ::
      (0 <= c < |results| && k in results[c] && forall d :: c < d < |results| ==> k !in results[d]) ==>
      Merge(results)[k] == results[c][k]
  {
    if results != [] {
      var init := results[..|results| - 1];
      MergeMeaning(init);
      forall k, c | 0 <= c < |results| - 1 && k in results[c] ensures k in init[c] { }
      forall k | exists c :: 0 <= c < |results| && k in results[c]
        ensures k in Merge(results)
      {
        var c :| 0 <= c < |results| && k in results[c];
        if c < |results| - 1 {
          assert k in init[c];
        }
      }
    }
  }

  /** The value of `__call__` from the merged results, by the declared shape (hetrtransform.py:176-183). */
  function Shape<V>(decl: ReturnsDecl<OpId>, merged: map<OpId, V>): (r: Result<CallResult<V>, string>)
    ensures decl.SingleOp? ==>
      (r.Success? <==> decl.op in merged) && (r.Success? ==> r.value == Value(merged[decl.op]))
    ensures (decl.OpSequence? || decl.OpOrderedSet?) ==>
      (r.Success? <==> forall op :: op in decl.ops ==> op in merged) &&
      (r.Success? ==>
        r.value.Tuple? && |r.value.vs| == |decl.ops| &&
        forall i :: 0 <= i < |decl.ops| ==> r.value.vs[i] == merged[decl.ops[i]])
    ensures decl.OpSet? ==> r == Success(Dict(merged))
    ensures decl.OtherReturns? ==> r == Success(NoValue)
  {
    match decl
    case SingleOp(op) => if op in merged then Success(Value(merged[op])) else Failure("KeyError")
    case OpSequence(ops) => TupleOf(ops, merged)
    case OpOrderedSet(ops) => TupleOf(ops, merged)
    case OpSet(_) => Success(Dict(merged))
    case OtherReturns => Success(NoValue)
  }

  /** `tuple(return_vals[op] for op in ops)`, failing on the first op without a value. */
  function TupleOf<V>(ops: seq<OpId>, merged: map<OpId, V>): (r: Result<CallResult<V>, string>)
    ensures r.Success? <==> forall op :: op in ops ==> op in merged
    ensures r.Success? ==>
      r.value.Tuple? && |r.value.vs| == |ops| &&
      forall i :: 0 <= i < |ops| ==> r.value.vs[i] == merged[ops[i]]
  {
    if forall op :: op in ops ==> op in merged
    then Success(Tuple(seq(|ops|, i requires 0 <= i < |ops| => merged[ops[i]])))
    else Failure("KeyError")
  }

  /** Every child's `param_idx` indexes into `args`. */
  predicate ArgsCover<E>(comp: Computation<E>, numArgs: nat)
    requires forall w :: w in comp.workers ==> w in comp.children
  {
    forall w, k :: w in comp.workers && 0 <= k < |comp.children[w].paramIdx| ==>
      comp.children[w].paramIdx[k] < numArgs
  }

  /**
   * `HetrComputation.__call__` (hetrtransform.py:161-183): each child is fed
   * the arguments at its `param_idx`, the children's results are merged in
   * child order, and the merged values are shaped as the returns were
   * declared. `results[c]` stands for what child `workers[c]` answers.
   */
  method Call<E, V>(comp: Computation<E>, args: seq<V>, results: seq<map<OpId, V>>)
    returns (fed: map<string, seq<V>>, r: Result<CallResult<V>, string>)
    requires Distinct(comp.workers)
    requires forall w :: w in comp.workers ==> w in comp.children
    requires |results| == |comp.workers|
    ensures !ArgsCover(comp, |args|) ==> r == Failure("IndexError")
    ensures ArgsCover(comp, |args|) ==>
      fed.Keys == (set w | w in comp.workers) &&
      (forall w :: w in comp.workers ==> fed[w] == Gather(args, comp.children[w].paramIdx)) &&
      r == Shape(comp.decl, Merge(results))
  {
    fed := map[];
    for c := 0 to |comp.workers|
      invariant fed.Keys == set w | w in comp.workers[..c]
      invariant forall w :: w in comp.workers[..c] ==>
        (forall k :: 0 <= k < |comp.children[w].paramIdx| ==> comp.children[w].paramIdx[k] < |args|) &&
        fed[w] == Gather(args, comp.children[w].paramIdx)
    {
      assert comp.workers[..c + 1] == comp.workers[..c] + [comp.workers[c]];
      var w := comp.workers[c];
      var idx := comp.children[w].paramIdx;
      if exists k :: 0 <= k < |idx| && idx[k] >= |args| {
        return fed, Failure("IndexError");
      }
      fed := fed[w := Gather(args, idx)];
    }
    assert comp.workers[..|comp.workers|] == comp.workers;
    var merged: map<OpId, V> := map[];
    for c := 0 to |results|
      invariant merged == Merge(results[..c])
    {
      assert results[..c + 1][..c] == results[..c];
      merged := merged + results[c];
    }
    assert results[..|results|] == results;
    r := Shape(comp.decl, merged);
  }

  /**
   * If each child answers exactly for the keys of its slot map, and every
   * requested return has a slot in some child, then `__call__` finds a
   * value for every declared return.
   */
  lemma {:induction false} CallFindsEveryReturn<E, V>(comp: Computation<E>, results: seq<map<OpId, V>>)
    requires forall w :: w in comp.workers ==> w in comp.children
    requires |results| == |comp.workers|
    requires comp.requested == DeclaredOps(comp.decl)
    requires forall c :: 0 <= c < |results| ==> results[c].Keys == comp.children[comp.workers[c]].slots.Keys
    requires forall x :: x in comp.requested ==> exists w :: w in comp.workers && x in comp.children[w].slots
    ensures Shape(comp.decl, Merge(results)).Success?
  {
    MergeMeaning(results);
    forall x | x in comp.requested ensures x in Merge(results)
    {
      var w :| w in comp.workers && x in comp.children[w].slots;
      var c :| 0 <= c < |comp.workers| && comp.workers[c] == w;
      assert x in results[c];
    }
  }
}
