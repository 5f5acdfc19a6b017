/**
 * The op metadata the heterogeneous transformer reads and writes, kept in an
 * arena keyed by op identity (ops refer to each other by id, never by
 * ownership).
 */
module HetrGraph {
  import opened Wrappers
  import opened OpGraph

  /** `metadata['device_id']`: absent, one index, or a list/tuple of indices (a split op). */
  datatype DeviceId = NoDeviceId | DeviceIndex(id: int) | DeviceList(ids: seq<int>)

  /**
   * `metadata['transformer']`, set by the device-assignment pass: absent, one
   * child-transformer name (a string such as "cpu0"), or a list of names.
   */
  datatype Placement = Unplaced | OnTransformer(name: string) | OnTransformers(names: seq<string>)

  /**
   * The op classes the orchestration tells apart: a `ResultOp` wrapper, a
   * `TensorValueOp` with the ops it reads (`states_read`), and any other op.
   */
  datatype OpKind = ComputeOp | ResultOp | TensorValueOp(statesRead: seq<OpId>)

  /**
   * One op: its kind, its argument ops, and the metadata entries the
   * orchestration reads (`device_id`, `transformer`) or writes
   * (`is_split_op`, `hetr_replaced_by`, `replaces_op`).
   */
  datatype Node = Node(
    kind: OpKind,
    args: seq<OpId>,
    deviceId: DeviceId,
    transformer: Placement,
    isSplitOp: bool,
    replacedBy: Option<OpId>,
    replacesOp: Option<OpId>)

  type Arena = map<OpId, Node>

  /** An op about which nothing is recorded. */
  const NoMetadata: Node := Node(ComputeOp, [], NoDeviceId, Unplaced, false, None, None)

  function Meta(arena: Arena, x: OpId): Node
  {
    if x in arena then arena[x] else NoMetadata
  }

  /** A return marked as split across devices (hetrtransform.py:80-81). */
  predicate IsSplit(n: Node)
  {
    n.deviceId.DeviceList?
  }

  /** `ResultOp(device_id=0, args=(op,))` with `replaces_op` set to `op` (hetrtransform.py:83,85). */
  function ResultNode(op: OpId): Node
  {
    Node(ResultOp, [op], DeviceIndex(0), Unplaced, false, None, Some(op))
  }

  /**
   * `p.metadata.update(q.metadata)`: every entry `q` has overwrites `p`'s,
   * and `p` keeps the entries `q` lacks. `is_split_op` is only ever set to
   * true, so an absent entry reads as false. The kind and arguments are not
   * metadata and are kept.
   */
  function Updated(p: Node, q: Node): (r: Node)
    ensures r.kind == p.kind && r.args == p.args
  {
    Node(p.kind, p.args,
         if q.deviceId.NoDeviceId? then p.deviceId else q.deviceId,
         if q.transformer.Unplaced? then p.transformer else q.transformer,
         p.isSplitOp || q.isSplitOp,
         if q.replacedBy.None? then p.replacedBy else q.replacedBy,
         if q.replacesOp.None? then p.replacesOp else q.replacesOp)
  }

  /** Updating twice from the same metadata is updating once. */
  lemma UpdatedIdempotent(p: Node, q: Node)
    ensures Updated(Updated(p, q), q) == Updated(p, q)
  {
  }

  /** An op updated from metadata without entries is unchanged. */
  lemma UpdatedFromNothing(p: Node)
    ensures Updated(p, NoMetadata) == p
  {
  }

  /**
   * After the update the op is placed exactly when it or `q` was; a placed
   * `q` gives its placement.
   */
  lemma UpdatedPlacement(p: Node, q: Node)
    ensures Updated(p, q).transformer.Unplaced? <==> p.transformer.Unplaced? && q.transformer.Unplaced?
    ensures !q.transformer.Unplaced? ==> Updated(p, q).transformer == q.transformer
  {
  }
}
