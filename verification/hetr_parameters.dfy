/**
 * The loop of hetrtransform.py:96-100: after the passes, every parameter
 * that is a `TensorValueOp` takes over the metadata of the first op it
 * reads, so a value read from a variable is placed where the variable is.
 */
module HetrParameters {
  import opened Wrappers
  import opened OpGraph
  import opened HetrGraph

  /** A `TensorValueOp` that reads nothing: `p.states_read[0]` raises `IndexError` on it. */
  predicate ReadsNothing(arena: Arena, p: OpId)
  {
    Meta(arena, p).kind.TensorValueOp? && Meta(arena, p).kind.statesRead == []
  }

  /** A `TensorValueOp` that reads something: the loop copies metadata into it. */
  predicate ReadsState(arena: Arena, p: OpId)
  {
    Meta(arena, p).kind.TensorValueOp? && Meta(arena, p).kind.statesRead != []
  }

  /** `p.states_read[0]`, for a `TensorValueOp` that reads something. */
  function StateOf(arena: Arena, p: OpId): OpId
    requires ReadsState(arena, p)
  {
    Meta(arena, p).kind.statesRead[0]
  }

  /** One turn of the loop, on parameter `p`. */
  function CopyOne(arena: Arena, p: OpId): Result<Arena, string>
  {
    var m := Meta(arena, p);
    if !m.kind.TensorValueOp? then Success(arena)
    else if m.kind.statesRead == [] then Failure("IndexError: list index out of range")
    else Success(arena[p := Updated(m, Meta(arena, m.kind.statesRead[0]))])
  }

  /** The graph after the first `n` turns of the loop, or the error of the turn that raised. */
  function CopiedPrefix(arena: Arena, parameters: seq<OpId>, n: nat): Result<Arena, string>
    requires n <= |parameters|
  {
    if n == 0 then Success(arena)
    else
      var prev := CopiedPrefix(arena, parameters, n - 1);
      if prev.Failure? then prev else CopyOne(prev.value, parameters[n - 1])
  }

  /** The graph after the whole loop. */
  function CopyStatesRead(arena: Arena, parameters: seq<OpId>): Result<Arena, string>
  {
    CopiedPrefix(arena, parameters, |parameters|)
  }

  /** Once a turn raises, the loop has raised: later turns do not run. */
  lemma {:induction false} FailureSticks(arena: Arena, parameters: seq<OpId>, i: nat, n: nat)
    requires i <= n <= |parameters|
    requires CopiedPrefix(arena, parameters, i).Failure?
    ensures CopiedPrefix(arena, parameters, n) == CopiedPrefix(arena, parameters, i)
    decreases n
  {
    if n > i {
      FailureSticks(arena, parameters, i, n - 1);
    }
  }

  /** The loop over `computation_op.parameters` (hetrtransform.py:96-100). */
  method UpdateTensorValueOps(arena: Arena, parameters: seq<OpId>) returns (r: Result<Arena, string>)
    ensures r == CopyStatesRead(arena, parameters)
  {
    var a := arena;
    for i := 0 to |parameters|
      invariant CopiedPrefix(arena, parameters, i) == Success(a)
    {
      var p := parameters[i];
      var m := Meta(a, p);
      if m.kind.TensorValueOp? {
        if m.kind.statesRead == [] {
          FailureSticks(arena, parameters, i + 1, |parameters|);
          return Failure("IndexError: list index out of range");
        }
        a := a[p := Updated(m, Meta(a, m.kind.statesRead[0]))];
      }
    }
    return Success(a);
  }

  /** The loop adds no op, and keeps every op's kind and arguments. */
  lemma {:induction false} CopiedShape(arena: Arena, parameters: seq<OpId>, n: nat)
    requires n <= |parameters|
    ensures CopiedPrefix(arena, parameters, n).Success? ==>
      var b := CopiedPrefix(arena, parameters, n).value;
      b.Keys == arena.Keys &&
      forall x :: Meta(b, x).kind == Meta(arena, x).kind && Meta(b, x).args == Meta(arena, x).args
  {
    if n > 0 {
      CopiedShape(arena, parameters, n - 1);
    }
  }

  /** The loop raises `IndexError` exactly when some parameter is a `TensorValueOp` reading nothing. */
  lemma {:induction false} CopyFails(arena: Arena, parameters: seq<OpId>, n: nat)
    requires n <= |parameters|
    ensures CopiedPrefix(arena, parameters, n).Failure? <==>
      exists i :: 0 <= i < n && ReadsNothing(arena, parameters[i])
  {
    if n > 0 {
      CopyFails(arena, parameters, n - 1);
      CopiedShape(arena, parameters, n - 1);
      var prev := CopiedPrefix(arena, parameters, n - 1);
      if prev.Success? {
        assert ReadsNothing(prev.value, parameters[n - 1]) <==> ReadsNothing(arena, parameters[n - 1]);
      }
    }
  }

  /** Only `TensorValueOp` parameters change. */
  lemma {:induction false} CopyFrame(arena: Arena, parameters: seq<OpId>, n: nat, x: OpId)
    requires n <= |parameters|
    requires x !in parameters[..n] || !Meta(arena, x).kind.TensorValueOp?
    ensures CopiedPrefix(arena, parameters, n).Success? ==>
      Meta(CopiedPrefix(arena, parameters, n).value, x) == Meta(arena, x)
  {
    if n > 0 {
      assert parameters[..n - 1] == parameters[..n][..n - 1];
      CopyFrame(arena, parameters, n - 1, x);
      CopiedShape(arena, parameters, n - 1);
    }
  }

  /** The ops the parameters read are not themselves `TensorValueOp`s. */
  predicate StatesAreVariables(arena: Arena, parameters: seq<OpId>)
  {
    forall i :: 0 <= i < |parameters| && ReadsState(arena, parameters[i]) ==>
      !Meta(arena, StateOf(arena, parameters[i])).kind.TensorValueOp?
  }

  /**
   * When the ops the parameters read are not `TensorValueOp`s, each
   * `TensorValueOp` parameter ends with its own metadata updated from that
   * of its state, however often it is listed.
   */
  lemma {:induction false} CopiedFromState(arena: Arena, parameters: seq<OpId>, n: nat)
    requires n <= |parameters|
    requires StatesAreVariables(arena, parameters)
    ensures CopiedPrefix(arena, parameters, n).Success? ==>
      forall i :: 0 <= i < n && ReadsState(arena, parameters[i]) ==>
        Meta(CopiedPrefix(arena, parameters, n).value, parameters[i]) ==
        Updated(Meta(arena, parameters[i]), Meta(arena, StateOf(arena, parameters[i])))
  {
    if n > 0 && CopiedPrefix(arena, parameters, n).Success? {
      var b := CopiedPrefix(arena, parameters, n).value;
      CopiedFromState(arena, parameters, n - 1);
      forall i | 0 <= i < n && ReadsState(arena, parameters[i])
        ensures Meta(b, parameters[i]) == Updated(Meta(arena, parameters[i]), Meta(arena, StateOf(arena, parameters[i])))
      {
        CopiedFromStateAt(arena, parameters, n, i);
      }
    }
  }

  /** One position of `CopiedFromState`, given the claim for the shorter prefix. */
  lemma CopiedFromStateAt(arena: Arena, parameters: seq<OpId>, n: nat, i: nat)
    requires 0 <= i < n <= |parameters|
    requires StatesAreVariables(arena, parameters)
    requires CopiedPrefix(arena, parameters, n).Success?
    requires ReadsState(arena, parameters[i])
    requires forall j :: 0 <= j < n - 1 && ReadsState(arena, parameters[j]) ==>
        Meta(CopiedPrefix(arena, parameters, n - 1).value, parameters[j]) ==
        Updated(Meta(arena, parameters[j]), Meta(arena, StateOf(arena, parameters[j])))
    ensures Meta(CopiedPrefix(arena, parameters, n).value, parameters[i]) ==
      Updated(Meta(arena, parameters[i]), Meta(arena, StateOf(arena, parameters[i])))
  {
    var prev := CopiedPrefix(arena, parameters, n - 1).value;
    var b := CopiedPrefix(arena, parameters, n).value;
    CopiedShape(arena, parameters, n - 1);
    var x := parameters[i];
    var q := StateOf(arena, x);
    var p := parameters[n - 1];
    var want := Updated(Meta(arena, x), Meta(arena, q));
    if p == x {
      CopyFrame(arena, parameters, n - 1, q);
      assert Meta(prev, q) == Meta(arena, q);
      assert b == prev[x := Updated(Meta(prev, x), Meta(prev, q))];
      if x in parameters[..n - 1] {
        var j :| 0 <= j < n - 1 && parameters[j] == x;
        assert Meta(prev, x) == want;
        UpdatedIdempotent(Meta(arena, x), Meta(arena, q));
      } else {
        CopyFrame(arena, parameters, n - 1, x);
      }
    } else {
      assert Meta(b, x) == Meta(prev, x);
    }
  }

  /**
   * After the loop, a `TensorValueOp` parameter is placed exactly when it or
   * the op it reads was; a placed state gives it its own placement.
   */
  lemma CopiedPlacement(arena: Arena, parameters: seq<OpId>, i: nat)
    requires i < |parameters|
    requires StatesAreVariables(arena, parameters)
    requires CopyStatesRead(arena, parameters).Success?
    requires ReadsState(arena, parameters[i])
    ensures var b := CopyStatesRead(arena, parameters).value;
      var p := parameters[i];
      var q := StateOf(arena, p);
      (Meta(b, p).transformer.Unplaced? <==> Meta(arena, p).transformer.Unplaced? && Meta(arena, q).transformer.Unplaced?) &&
      (!Meta(arena, q).transformer.Unplaced? ==> Meta(b, p).transformer == Meta(arena, q).transformer)
  {
    CopiedFromState(arena, parameters, |parameters|);
    UpdatedPlacement(Meta(arena, parameters[i]), Meta(arena, StateOf(arena, parameters[i])));
  }
}
