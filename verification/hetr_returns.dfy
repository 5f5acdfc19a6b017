/**
 * Wrapping requested returns that are split across devices
 * (hetrtransform.py:76-88) and running the device-assignment and
 * communication passes on a growing op set (hetrtransform.py:90-94).
 */
module HetrReturns {
  import opened Wrappers
  import opened SeqUtil
  import opened OpGraph
  import opened HetrGraph

  /** Every key of the arena lies below `nextId`, so `nextId + i` names a new op. */
  predicate FreshAbove(arena: Arena, requested: seq<OpId>, nextId: OpId)
  {
    (forall k :: k in arena ==> k < nextId) &&
    (forall i :: 0 <= i < |requested| ==> requested[i] < nextId)
  }

  /** The id the loop gives to the wrapper of `requested[i]`. */
  function WrapperId(nextId: OpId, i: nat): OpId { nextId + i }

  /**
   * One turn of the loop of hetrtransform.py:78-88, on the return at
   * position `n`: a split return is replaced by a new `ResultOp` whose id is
   * `WrapperId(nextId, n)`, and the original is marked; any other return is
   * kept as it is.
   */
  function WrapStep(requested: seq<OpId>, nextId: OpId, n: nat,
                    wrapped: Arena, newReturns: seq<OpId>): (Arena, seq<OpId>)
    requires n < |requested|
  {
    var op := requested[n];
    if op in wrapped && IsSplit(wrapped[op]) then
      var w := WrapperId(nextId, n);
      (wrapped[op := wrapped[op].(isSplitOp := true, replacedBy := Some(w))][w := ResultNode(op)],
       newReturns + [w])
    else
      (wrapped, newReturns + [op])
  }

  /** The graph and the return list after the first `n` turns of the loop. */
  function WrapPrefix(arena: Arena, requested: seq<OpId>, nextId: OpId, n: nat): (Arena, seq<OpId>)
    requires n <= |requested|
  {
    if n == 0 then (arena, [])
    else
      var (w, r) := WrapPrefix(arena, requested, nextId, n - 1);
      WrapStep(requested, nextId, n - 1, w, r)
  }

  /** A return that the loop wraps: it is in the graph and its `device_id` is a list. */
  predicate WrapsAt(arena: Arena, requested: seq<OpId>, i: nat)
    requires i < |requested|
  {
    IsSplit(Meta(arena, requested[i]))
  }

  /** `k` is one of the first `n` returns, and the loop wraps it. */
  predicate WrappedAmong(arena: Arena, requested: seq<OpId>, n: nat, k: OpId)
    requires n <= |requested|
  {
    exists i :: 0 <= i < n && requested[i] == k && WrapsAt(arena, requested, i)
  }

  /** `k` is the wrapper the loop makes for one of the first `n` returns. */
  predicate IsWrapperAmong(arena: Arena, requested: seq<OpId>, nextId: OpId, n: nat, k: OpId)
    requires n <= |requested|
  {
    nextId <= k < nextId + n && WrapsAt(arena, requested, k - nextId)
  }

  /** The loop keeps one entry per return. */
  lemma {:induction false} WrapPrefixLength(arena: Arena, requested: seq<OpId>, nextId: OpId, n: nat)
    requires n <= |requested|
    ensures |WrapPrefix(arena, requested, nextId, n).1| == n
  {
    if n > 0 {
      WrapPrefixLength(arena, requested, nextId, n - 1);
    }
  }

  /** A return the loop has not reached yet is untouched: still in the graph as it was, or still absent. */
  lemma {:induction false} WrapPrefixUntouched(arena: Arena, requested: seq<OpId>, nextId: OpId, n: nat, j: nat)
    requires Distinct(requested) && FreshAbove(arena, requested, nextId)
    requires n <= j < |requested|
    ensures var w := WrapPrefix(arena, requested, nextId, n).0;
      (requested[j] in arena ==> requested[j] in w && w[requested[j]] == arena[requested[j]]) &&
      (requested[j] !in arena ==> requested[j] !in w)
  {
    if n > 0 {
      WrapPrefixUntouched(arena, requested, nextId, n - 1, j);
      assert requested[n - 1] != requested[j];
    }
  }

  /** After `n` turns, the wrapped graph is the previous one with the `n`-th return's step applied. */
  lemma WrapPrefixLast(arena: Arena, requested: seq<OpId>, nextId: OpId, n: nat)
    requires 0 < n <= |requested|
    ensures var w := WrapPrefix(arena, requested, nextId, n - 1).0;
      var w' := WrapPrefix(arena, requested, nextId, n).0;
      var op := requested[n - 1];
      var id := WrapperId(nextId, n - 1);
      (op in w && IsSplit(w[op]) ==>
        w' == w[op := w[op].(isSplitOp := true, replacedBy := Some(id))][id := ResultNode(op)]) &&
      (!(op in w && IsSplit(w[op])) ==> w' == w)
  {
  }

  /** Every op that is not a wrapped return among the first `n` keeps its metadata. */
  lemma {:induction false} WrapPrefixKeeps(arena: Arena, requested: seq<OpId>, nextId: OpId, n: nat)
    requires Distinct(requested) && FreshAbove(arena, requested, nextId)
    requires n <= |requested|
    ensures var w := WrapPrefix(arena, requested, nextId, n).0;
      forall k :: k in arena && !WrappedAmong(arena, requested, n, k) ==>
        k in w && w[k] == arena[k]
  {
    if n > 0 {
      WrapPrefixKeeps(arena, requested, nextId, n - 1);
      WrapPrefixUntouched(arena, requested, nextId, n - 1, n - 1);
      WrapPrefixLast(arena, requested, nextId, n);
      var w := WrapPrefix(arena, requested, nextId, n - 1).0;
      var w' := WrapPrefix(arena, requested, nextId, n).0;
      forall k | k in arena && !WrappedAmong(arena, requested, n, k)
        ensures k in w' && w'[k] == arena[k]
      {
        assert k in w && w[k] == arena[k];
        if WrapsAt(arena, requested, n - 1) {
          assert k != requested[n - 1] && k < nextId;
        }
      }
    }
  }

  /** The graph gains only the wrapper ids of wrapped returns among the first `n`. */
  lemma {:induction false} WrapPrefixAdds(arena: Arena, requested: seq<OpId>, nextId: OpId, n: nat)
    requires Distinct(requested) && FreshAbove(arena, requested, nextId)
    requires n <= |requested|
    ensures var w := WrapPrefix(arena, requested, nextId, n).0;
      forall k :: k in w ==> k in arena || IsWrapperAmong(arena, requested, nextId, n, k)
  {
    if n > 0 {
      WrapPrefixAdds(arena, requested, nextId, n - 1);
      WrapPrefixUntouched(arena, requested, nextId, n - 1, n - 1);
      WrapPrefixLast(arena, requested, nextId, n);
      var w := WrapPrefix(arena, requested, nextId, n - 1).0;
      var w' := WrapPrefix(arena, requested, nextId, n).0;
      forall k | k in w'
        ensures k in arena || IsWrapperAmong(arena, requested, nextId, n, k)
      {
        if k != WrapperId(nextId, n - 1) {
          assert k in w;
        }
      }
    }
  }

  /**
   * Every op that is not a wrapped return among the first `n` keeps its
   * metadata, and the graph gains only wrapper ids of wrapped returns.
   */
  lemma WrapPrefixFrame(arena: Arena, requested: seq<OpId>, nextId: OpId, n: nat, w: Arena)
    requires Distinct(requested) && FreshAbove(arena, requested, nextId)
    requires n <= |requested|
    requires w == WrapPrefix(arena, requested, nextId, n).0
    ensures forall k :: k in arena && !WrappedAmong(arena, requested, n, k) ==>
      k in w && w[k] == arena[k]
    ensures forall k :: k in w ==>
      k in arena || IsWrapperAmong(arena, requested, nextId, n, k)
  {
    WrapPrefixKeeps(arena, requested, nextId, n);
    WrapPrefixAdds(arena, requested, nextId, n);
  }

  /** The returns among the first `n` that are kept stay in place. */
  lemma {:induction false} WrapPrefixKept(arena: Arena, requested: seq<OpId>, nextId: OpId, n: nat)
    requires Distinct(requested) && FreshAbove(arena, requested, nextId)
    requires n <= |requested|
    ensures var r := WrapPrefix(arena, requested, nextId, n).1;
      |r| == n &&
      forall i :: 0 <= i < n && !WrapsAt(arena, requested, i) ==> r[i] == requested[i]
  {
    WrapPrefixLength(arena, requested, nextId, n);
    if n > 0 {
      WrapPrefixKept(arena, requested, nextId, n - 1);
      WrapPrefixUntouched(arena, requested, nextId, n - 1, n - 1);
      var r := WrapPrefix(arena, requested, nextId, n - 1).1;
      var r' := WrapPrefix(arena, requested, nextId, n).1;
      assert r'[..n - 1] == r;
      if !WrapsAt(arena, requested, n - 1) {
        assert r'[n - 1] == requested[n - 1];
      }
    }
  }

  /** What the loop has done to the wrapped returns among the first `n`. */
  ghost predicate WrappedBefore(arena: Arena, requested: seq<OpId>, nextId: OpId, n: nat,
                                w: Arena, r: seq<OpId>)
    requires n <= |requested|
  {
    |r| == n &&
    forall i :: 0 <= i < n && WrapsAt(arena, requested, i) ==>
      r[i] == WrapperId(nextId, i) &&
      WrapperId(nextId, i) in w && w[WrapperId(nextId, i)] == ResultNode(requested[i]) &&
      requested[i] in w &&
      w[requested[i]] == arena[requested[i]].(isSplitOp := true, replacedBy := Some(WrapperId(nextId, i)))
  }

  /** One turn of the loop keeps `WrappedBefore`, given that the return it visits is untouched so far. */
  lemma WrapStepWrapped(arena: Arena, requested: seq<OpId>, nextId: OpId, n: nat,
                        w: Arena, r: seq<OpId>)
    requires Distinct(requested) && FreshAbove(arena, requested, nextId)
    requires n < |requested|
    requires WrappedBefore(arena, requested, nextId, n, w, r)
    requires requested[n] in arena ==> requested[n] in w && w[requested[n]] == arena[requested[n]]
    requires requested[n] !in arena ==> requested[n] !in w
    ensures var (w', r') := WrapStep(requested, nextId, n, w, r);
      WrappedBefore(arena, requested, nextId, n + 1, w', r')
  {
    var (w', r') := WrapStep(requested, nextId, n, w, r);
    var op := requested[n];
    forall i | 0 <= i < n + 1 && WrapsAt(arena, requested, i)
      ensures r'[i] == WrapperId(nextId, i)
      ensures WrapperId(nextId, i) in w' && w'[WrapperId(nextId, i)] == ResultNode(requested[i])
      ensures requested[i] in w'
      ensures w'[requested[i]] == arena[requested[i]].(isSplitOp := true, replacedBy := Some(WrapperId(nextId, i)))
    {
      if i < n {
        assert requested[i] != op;
        assert r'[i] == r[i];
      }
    }
  }

  /**
   * Each wrapped return among the first `n` is replaced at its position by
   * its wrapper, the wrapper is a `ResultOp` over it, and the original is
   * marked as split and replaced.
   */
  lemma {:induction false} WrapPrefixWrapped(arena: Arena, requested: seq<OpId>, nextId: OpId, n: nat)
    requires Distinct(requested) && FreshAbove(arena, requested, nextId)
    requires n <= |requested|
    ensures var (w, r) := WrapPrefix(arena, requested, nextId, n);
      WrappedBefore(arena, requested, nextId, n, w, r)
  {
    if n > 0 {
      WrapPrefixWrapped(arena, requested, nextId, n - 1);
      WrapPrefixUntouched(arena, requested, nextId, n - 1, n - 1);
      var (w, r) := WrapPrefix(arena, requested, nextId, n - 1);
      WrapStepWrapped(arena, requested, nextId, n - 1, w, r);
    }
  }

  /**
   * The loop of hetrtransform.py:78-88. Each return whose `device_id` is a
   * list or tuple is replaced, at the same position, by a new
   * `ResultOp(device_id=0)`; the original is marked `is_split_op` with
   * `hetr_replaced_by` pointing at the wrapper, and the wrapper's
   * `replaces_op` points back. Every other return and every other op is
   * left as it was; the graph gains nothing but the wrappers.
   */
  method WrapSplitReturns(arena: Arena, requested: seq<OpId>, nextId: OpId)
    returns (wrapped: Arena, newReturns: seq<OpId>)
    requires Distinct(requested)
    requires FreshAbove(arena, requested, nextId)
    ensures (wrapped, newReturns) == WrapPrefix(arena, requested, nextId, |requested|)
    ensures |newReturns| == |requested|
    ensures forall i :: 0 <= i < |requested| && WrapsAt(arena, requested, i) ==>
      newReturns[i] == WrapperId(nextId, i) &&
      WrapperId(nextId, i) in wrapped && wrapped[WrapperId(nextId, i)] == ResultNode(requested[i]) &&
      requested[i] in wrapped &&
      wrapped[requested[i]] == arena[requested[i]].(isSplitOp := true, replacedBy := Some(WrapperId(nextId, i)))
    ensures forall i :: 0 <= i < |requested| && !WrapsAt(arena, requested, i) ==>
      newReturns[i] == requested[i]
    ensures forall k :: k in arena && !WrappedAmong(arena, requested, |requested|, k) ==>
      k in wrapped && wrapped[k] == arena[k]
    ensures forall k :: k in wrapped ==>
      k in arena || IsWrapperAmong(arena, requested, nextId, |requested|, k)
  {
    wrapped, newReturns := arena, [];
    for n := 0 to |requested|
      invariant (wrapped, newReturns) == WrapPrefix(arena, requested, nextId, n)
    {
      var op := requested[n];
      if op in wrapped && IsSplit(wrapped[op]) {
        var w := WrapperId(nextId, n);
        var original := wrapped[op].(isSplitOp := true, replacedBy := Some(w));
        wrapped := wrapped[op := original][w := ResultNode(op)];
        newReturns := newReturns + [w];
      } else {
        newReturns := newReturns + [op];
      }
    }
    WrapPrefixFrame(arena, requested, nextId, |requested|, wrapped);
    WrapPrefixKept(arena, requested, nextId, |requested|);
    WrapPrefixWrapped(arena, requested, nextId, |requested|);
  }

  /**
   * A device-assignment, communication or axes-update pass: given the graph,
   * the shared send-node set and the ops to start from, it yields the new
   * graph and send-node set. The passes are not part of this model.
   */
  type GraphPass = (Arena, seq<OpId>, seq<OpId>) -> (Arena, seq<OpId>)

  predicate IncludedIn(a: seq<OpId>, b: seq<OpId>)
  {
    forall x :: x in a ==> x in b
  }

  lemma IncludedTrans(a: seq<OpId>, b: seq<OpId>, c: seq<OpId>)
    requires IncludedIn(a, b) && IncludedIn(b, c)
    ensures IncludedIn(a, c)
  {
  }

  /** What one pass is handed: the graph, the shared send-node set and the op set. */
  datatype PassInput = PassInput(arena: Arena, sendNodes: seq<OpId>, ops: seq<OpId>)

  /** `graph_pass.do_pass(ops=...)` on what the pass is handed. */
  function Run(pass: GraphPass, input: PassInput): (Arena, seq<OpId>)
  {
    pass(input.arena, input.sendNodes, input.ops)
  }

  /** What the next pass is handed: the op set so far joined with the current send nodes. */
  function Handed(arena: Arena, sendNodes: seq<OpId>, passOps: seq<OpId>): PassInput
  {
    PassInput(arena, sendNodes, OrderedUnion(passOps, sendNodes))
  }

  /** The graph and send nodes after running `passes` in order from `passOps`. */
  function ApplyPasses(passes: seq<GraphPass>, arena: Arena, sendNodes: seq<OpId>, passOps: seq<OpId>)
    : (Arena, seq<OpId>)
  {
    if passes == [] then (arena, sendNodes)
    else
      var input := Handed(arena, sendNodes, passOps);
      var out := Run(passes[0], input);
      ApplyPasses(passes[1..], out.0, out.1, input.ops)
  }

  /**
   * What each pass in turn is handed when `passes` run from `passOps`, in
   * the same recursion as `ApplyPasses`.
   */
  function PassTrace(passes: seq<GraphPass>, arena: Arena, sendNodes: seq<OpId>, passOps: seq<OpId>)
    : (r: seq<PassInput>)
    ensures |r| == |passes|
  {
    if passes == [] then []
    else
      var input := Handed(arena, sendNodes, passOps);
      var out := Run(passes[0], input);
      [input] + PassTrace(passes[1..], out.0, out.1, input.ops)
  }

  /**
   * The trace is a chain: the first pass gets the starting graph and send
   * nodes, and the op set joined with those send nodes. Each later pass
   * gets what the pass before it produced, and the op set before it joined
   * with the send nodes found so far. The last pass produces
   * `ApplyPasses`'s result.
   */
  lemma {:induction false} PassTraceChain(passes: seq<GraphPass>, arena: Arena, sendNodes: seq<OpId>,
                                          passOps: seq<OpId>)
    requires passes != []
    ensures var t := PassTrace(passes, arena, sendNodes, passOps);
      t[0] == Handed(arena, sendNodes, passOps) &&
      (forall k :: 0 <= k < |passes| - 1 ==>
        var out := Run(passes[k], t[k]);
        t[k + 1] == Handed(out.0, out.1, t[k].ops)) &&
      ApplyPasses(passes, arena, sendNodes, passOps) == Run(passes[|passes| - 1], t[|passes| - 1])
  {
    var t := PassTrace(passes, arena, sendNodes, passOps);
    var input := Handed(arena, sendNodes, passOps);
    var out := Run(passes[0], input);
    var rest := passes[1..];
    if rest != [] {
      PassTraceChain(rest, out.0, out.1, input.ops);
      var t' := PassTrace(rest, out.0, out.1, input.ops);
      assert t == [input] + t';
      forall k | 0 <= k < |passes| - 1
        ensures var out := Run(passes[k], t[k]);
          t[k + 1] == Handed(out.0, out.1, t[k].ops)
      {
        if k > 0 {
          assert t[k] == t'[k - 1] && t[k + 1] == t'[k] && passes[k] == rest[k - 1];
        }
      }
    }
  }

  /**
   * Every op set handed to a pass contains the starting op set and the send
   * nodes handed to that same pass, and contains every op set before it.
   */
  predicate OpSetsCover(t: seq<PassInput>, passOps: seq<OpId>)
  {
    forall k :: 0 <= k < |t| ==>
      IncludedIn(passOps, t[k].ops) && IncludedIn(t[k].sendNodes, t[k].ops) &&
      forall j :: 0 <= j <= k ==> IncludedIn(t[j].ops, t[k].ops)
  }

  /** The op sets of a pass trace cover the starting op set, their send nodes and each other. */
  lemma {:induction false} PassTraceOps(passes: seq<GraphPass>, arena: Arena, sendNodes: seq<OpId>,
                                        passOps: seq<OpId>)
    ensures OpSetsCover(PassTrace(passes, arena, sendNodes, passOps), passOps)
  {
    if passes != [] {
      var t := PassTrace(passes, arena, sendNodes, passOps);
      var input := Handed(arena, sendNodes, passOps);
      var out := Run(passes[0], input);
      PassTraceOps(passes[1..], out.0, out.1, input.ops);
      var t' := PassTrace(passes[1..], out.0, out.1, input.ops);
      assert t == [input] + t';
      forall k | 0 <= k < |t|
        ensures IncludedIn(passOps, t[k].ops) && IncludedIn(t[k].sendNodes, t[k].ops) &&
          forall j :: 0 <= j <= k ==> IncludedIn(t[j].ops, t[k].ops)
      {
        if k > 0 {
          assert t[k] == t'[k - 1];
          IncludedTrans(passOps, input.ops, t[k].ops);
          forall j | 0 <= j <= k ensures IncludedIn(t[j].ops, t[k].ops)
          {
            if j > 0 {
              assert t[j] == t'[j - 1];
            }
          }
        }
      }
    }
  }

  /** One pass of the loop: both recursions take the same first step. */
  lemma PassStep(passes: seq<GraphPass>, arena: Arena, sendNodes: seq<OpId>, passOps: seq<OpId>)
    requires passes != []
    ensures var input := Handed(arena, sendNodes, passOps);
      var out := passes[0](arena, sendNodes, input.ops);
      ApplyPasses(passes, arena, sendNodes, passOps) == ApplyPasses(passes[1..], out.0, out.1, input.ops) &&
      PassTrace(passes, arena, sendNodes, passOps) == [input] + PassTrace(passes[1..], out.0, out.1, input.ops)
  {
  }

  /**
   * Op sets equal to those of a pass trace hold the new returns and
   * parameters, the send nodes handed with them, and each earlier set.
   */
  lemma TracedOpSets(passes: seq<GraphPass>, arena: Arena, sendNodes: seq<OpId>,
                     newReturns: seq<OpId>, parameters: seq<OpId>, opSets: seq<seq<OpId>>)
    requires |opSets| == |passes|
    requires forall k :: 0 <= k < |passes| ==>
      opSets[k] == PassTrace(passes, arena, sendNodes, OrderedUnion(newReturns, parameters))[k].ops
    ensures forall k, x :: 0 <= k < |opSets| && (x in newReturns || x in parameters) ==> x in opSets[k]
    ensures forall k :: 0 <= k < |opSets| ==>
      IncludedIn(PassTrace(passes, arena, sendNodes, OrderedUnion(newReturns, parameters))[k].sendNodes, opSets[k])
    ensures forall j, k :: 0 <= j <= k < |opSets| ==> IncludedIn(opSets[j], opSets[k])
  {
    PassTraceOps(passes, arena, sendNodes, OrderedUnion(newReturns, parameters));
  }

  /**
   * The pass loop of hetrtransform.py:91-94: the op set starts as the
   * wrapped returns followed by the parameters; before each pass the send
   * nodes found so far are added to it. `opSets[k]` is what pass `k` got.
   */
  method RunPasses(passes: seq<GraphPass>, arena: Arena, sendNodes: seq<OpId>,
                   newReturns: seq<OpId>, parameters: seq<OpId>)
    returns (arena': Arena, sendNodes': seq<OpId>, opSets: seq<seq<OpId>>)
    ensures (arena', sendNodes') == ApplyPasses(passes, arena, sendNodes, OrderedUnion(newReturns, parameters))
    ensures |opSets| == |passes|
    ensures forall k :: 0 <= k < |passes| ==>
      opSets[k] == PassTrace(passes, arena, sendNodes, OrderedUnion(newReturns, parameters))[k].ops
    ensures forall k, x :: 0 <= k < |opSets| && (x in newReturns || x in parameters) ==> x in opSets[k]
    ensures forall k :: 0 <= k < |opSets| ==>
      IncludedIn(PassTrace(passes, arena, sendNodes, OrderedUnion(newReturns, parameters))[k].sendNodes, opSets[k])
    ensures forall j, k :: 0 <= j <= k < |opSets| ==> IncludedIn(opSets[j], opSets[k])
  {
    var passOps := OrderedUnion(newReturns, parameters);
    ghost var base := passOps;
    ghost var trace: seq<PassInput> := [];
    arena', sendNodes' := arena, sendNodes;
    opSets := [];
    for k := 0 to |passes|
      invariant ApplyPasses(passes[k..], arena', sendNodes', passOps)
             == ApplyPasses(passes, arena, sendNodes, base)
      invariant PassTrace(passes, arena, sendNodes, base) == trace + PassTrace(passes[k..], arena', sendNodes', passOps)
      invariant |opSets| == |trace| == k
      invariant forall j :: 0 <= j < k ==> opSets[j] == trace[j].ops
    {
      assert passes[k..][1..] == passes[k + 1..];
      PassStep(passes[k..], arena', sendNodes', passOps);
      var input := Handed(arena', sendNodes', passOps);
      trace := trace + [input];
      passOps := input.ops;
      var after := passes[k](arena', sendNodes', passOps);
      arena', sendNodes' := after.0, after.1;
      opSets := opSets + [passOps];
    }
    TracedOpSets(passes, arena, sendNodes, newReturns, parameters, opSets);
  }
}
