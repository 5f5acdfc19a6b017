/**
 * Identities of graph operations, the shapes a computation's declared returns
 * can take.
 */
module OpGraph {
  import opened SeqUtil

  /** An operation, identified by its unique name (ngraph numbers op names globally). */
  type OpId = nat

  /**
   * `ComputationOp.returns`, over ops of type `T`: a single op, a list/tuple, an OrderedSet, a plain
   * set (given in its iteration order), or anything else (e.g. None).
   */
  datatype ReturnsDecl<T> =
    | SingleOp(op: T)
    | OpSequence(ops: seq<T>)
    | OpOrderedSet(ops: seq<T>)
    | OpSet(ops: seq<T>)
    | OtherReturns

  /** The ops a declaration names, as an OrderedSet (hetrtransform.py:70-74). */
  function DeclaredOps<T(==,!new)>(decl: ReturnsDecl<T>): (r: seq<T>)
    ensures Distinct(r)
    ensures decl.SingleOp? ==> r == [decl.op]
    ensures decl.OtherReturns? ==> r == []
    ensures !decl.SingleOp? && !decl.OtherReturns? ==> forall x :: x in r <==> x in decl.ops
  {
    match decl
    case SingleOp(op) => [op]
    case OpSequence(ops) => Dedup(ops)
    case OpOrderedSet(ops) => Dedup(ops)
    case OpSet(ops) => Dedup(ops)
    case OtherReturns => []
  }
}
